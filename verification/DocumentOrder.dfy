/** Document order, as Sizzle finds it without help from the browser, and sorting by it. */
module DocumentOrder {
  import opened Wrappers
  import opened Dom

  /** The indices by which a node is reached from its root. */
  ghost function Path(n: Node, nodes: set<Node>): seq<nat>
    requires IsForest(nodes) && n in nodes
    reads nodes
    decreases n.depth
  {
    assert LinkedUp(n, nodes);
    if n.parentNode == null then [] else Path(n.parentNode, nodes) + [n.index]
  }

  /** The nodes on that way, from the root to the node itself. */
  ghost function Line(n: Node, nodes: set<Node>): (s: seq<Node>)
    requires IsForest(nodes) && n in nodes
    ensures s != [] && s[|s| - 1] == n && |s| == |Path(n, nodes)| + 1
    reads nodes
    decreases n.depth
  {
    assert LinkedUp(n, nodes);
    if n.parentNode == null then [n] else Line(n.parentNode, nodes) + [n]
  }

  ghost function Root(n: Node, nodes: set<Node>): Node
    requires IsForest(nodes) && n in nodes
    reads nodes
  {
    Line(n, nodes)[0]
  }

  /** The order in which a document is written: a node comes before its descendants, and these
      before whatever follows the node. */
  ghost predicate Before(p: seq<nat>, q: seq<nat>) {
    if q == [] then false
    else if p == [] then true
    else p[0] < q[0] || (p[0] == q[0] && Before(p[1..], q[1..]))
  }

  ghost predicate Precedes(a: Node, b: Node, nodes: set<Node>)
    requires IsForest(nodes) && a in nodes && b in nodes
    reads nodes
  {
    Before(Path(a, nodes), Path(b, nodes))
  }

  lemma {:induction false} BeforeIsTotal(p: seq<nat>, q: seq<nat>)
    ensures if p == q then !Before(p, q) else Before(p, q) != Before(q, p)
  {
    if p != [] && q != [] {
      BeforeIsTotal(p[1..], q[1..]);
      assert p == [p[0]] + p[1..] && q == [q[0]] + q[1..];
    }
  }

  lemma {:induction false} BeforeIsTransitive(p: seq<nat>, q: seq<nat>, r: seq<nat>)
    requires Before(p, q) && Before(q, r)
    ensures Before(p, r)
  {
    if p != [] && p[0] == q[0] && q[0] == r[0] {
      BeforeIsTransitive(p[1..], q[1..], r[1..]);
    }
  }

  /** Where two paths part decides. */
  lemma {:induction false} BeforeAt(p: seq<nat>, q: seq<nat>, k: nat)
    requires k <= |p| && k <= |q| && p[..k] == q[..k]
    requires k == |p| || k == |q| || p[k] != q[k]
    ensures Before(p, q) <==> k < |q| && (k == |p| || p[k] < q[k])
  {
    if k > 0 {
      assert p[..k][0] == p[0] && q[..k][0] == q[0];
      assert p[1..][..k - 1] == p[..k][1..] && q[1..][..k - 1] == q[..k][1..];
      BeforeAt(p[1..], q[1..], k - 1);
    }
  }

  lemma {:induction false} LineLinks(n: Node, nodes: set<Node>, i: nat)
    requires IsForest(nodes) && n in nodes && i < |Line(n, nodes)|
    ensures var s, p := Line(n, nodes), Path(n, nodes);
      && s[i] in nodes
      && (if i == 0 then s[i].parentNode == null
          else
            && s[i].parentNode == s[i - 1] && s[i].index == p[i - 1] && p[i - 1] < |s[i - 1].childNodes|
            && s[i - 1].childNodes[p[i - 1]] == s[i])
    decreases n.depth
  {
    assert LinkedUp(n, nodes);
    if n.parentNode != null && i < |Line(n, nodes)| - 1 {
      LineLinks(n.parentNode, nodes, i);
    } else if n.parentNode != null {
      assert Line(n.parentNode, nodes)[|Line(n.parentNode, nodes)| - 1] == n.parentNode;
    }
  }

  /** Two lines from one root agree for as long as the paths do. */
  lemma {:induction false} LinesAgree(a: Node, b: Node, nodes: set<Node>, i: nat)
    requires IsForest(nodes) && a in nodes && b in nodes && i < |Line(a, nodes)| && i < |Line(b, nodes)|
    requires Line(a, nodes)[0] == Line(b, nodes)[0]
    ensures Line(a, nodes)[i] == Line(b, nodes)[i] <==> Path(a, nodes)[..i] == Path(b, nodes)[..i]
  {
    if i > 0 {
      LineLinks(a, nodes, i);
      LineLinks(b, nodes, i);
      LinesAgree(a, b, nodes, i - 1);
      var p, q := Path(a, nodes), Path(b, nodes);
      assert p[..i] == p[..i - 1] + [p[i - 1]] && q[..i] == q[..i - 1] + [q[i - 1]];
    }
  }

  /** On the nodes of one document, `Precedes` is a strict total order. */
  lemma PrecedesIsStrictTotalOrder(a: Node, b: Node, c: Node, nodes: set<Node>)
    requires IsForest(nodes) && a in nodes && b in nodes && c in nodes
    requires Root(a, nodes) == Root(b, nodes) == Root(c, nodes)
    ensures !Precedes(a, a, nodes)
    ensures a != b ==> (Precedes(a, b, nodes) <==> !Precedes(b, a, nodes))
    ensures Precedes(a, b, nodes) && Precedes(b, c, nodes) ==> Precedes(a, c, nodes)
  {
    var p, q := Path(a, nodes), Path(b, nodes);
    BeforeIsTotal(p, p);
    BeforeIsTotal(p, q);
    if p == q {
      LinesAgree(a, b, nodes, |p|);
      assert p[..|p|] == q[..|p|];
    }
    if Precedes(a, b, nodes) && Precedes(b, c, nodes) {
      BeforeIsTransitive(p, q, Path(c, nodes));
    }
  }

  /** The two lines pass through the same parent at `i - 1`. */
  ghost predicate PartAt(a: Node, b: Node, nodes: set<Node>, i: nat)
    requires IsForest(nodes) && a in nodes && b in nodes
    reads nodes
  {
    0 < i < |Line(a, nodes)| && i < |Line(b, nodes)| && Line(a, nodes)[i - 1] == Line(b, nodes)[i - 1]
  }

  /** A node comes before everything below it, and all that is below it before its later siblings
      and all that is below them. */
  lemma PrecedesIsPreorder(a: Node, b: Node, nodes: set<Node>, i: nat)
    requires IsForest(nodes) && a in nodes && b in nodes && Root(a, nodes) == Root(b, nodes) && i < |Line(b, nodes)|
    ensures a == Line(b, nodes)[i] && a != b ==> Precedes(a, b, nodes)
    ensures PartAt(a, b, nodes, i) && Line(a, nodes)[i].index < Line(b, nodes)[i].index ==> Precedes(a, b, nodes)
  {
    var p, q := Path(a, nodes), Path(b, nodes);
    if a == Line(b, nodes)[i] && a != b {
      PathOfAncestor(b, nodes, i);
      assert p[..|p|] == q[..|p|];
      BeforeAt(p, q, |p|);
    }
    if PartAt(a, b, nodes, i) && Line(a, nodes)[i].index < Line(b, nodes)[i].index {
      LinesAgree(a, b, nodes, i - 1);
      LineLinks(a, nodes, i);
      LineLinks(b, nodes, i);
      BeforeAt(p, q, i - 1);
    }
  }

  lemma {:induction false} PathOfAncestor(n: Node, nodes: set<Node>, i: nat)
    requires IsForest(nodes) && n in nodes && i < |Line(n, nodes)|
    ensures Line(n, nodes)[i] in nodes && Path(Line(n, nodes)[i], nodes) == Path(n, nodes)[..i]
    decreases n.depth
  {
    assert LinkedUp(n, nodes);
    if n.parentNode != null && i < |Line(n, nodes)| - 1 {
      PathOfAncestor(n.parentNode, nodes, i);
    } else {
      assert Path(n, nodes)[..i] == Path(n, nodes);
    }
  }

  /** `siblingCheck`: which of two siblings comes first; nothing comes before something. */
  method SiblingCheck(a: Node?, b: Node?, ghost nodes: set<Node>) returns (r: int)
    requires IsForest(nodes) && (a != null ==> a in nodes) && (b != null ==> b in nodes)
    requires a != null && b != null ==> a != b && a.parentNode != null && a.parentNode == b.parentNode
    ensures a == null ==> r < 0
    ensures a != null && b == null ==> r > 0
    ensures a != null && b != null ==> (r < 0 <==> a.index < b.index) && (r > 0 <==> b.index < a.index)
  {
    var cur := if b != null then a else null;
    if cur != null {
      assert LinkedUp(a, nodes) && LinkedUp(b, nodes);
      ghost var i := a.index;
      cur := cur.nextSibling;
      while cur != null
        invariant i < |a.parentNode.childNodes|
        invariant cur == if i + 1 == |a.parentNode.childNodes| then null else a.parentNode.childNodes[i + 1]
        invariant i >= a.index && !(a.index < b.index <= i)
        decreases |a.parentNode.childNodes| - i
      {
        assert LinkedDown(a.parentNode, nodes);
        assert LinkedUp(cur, nodes);
        if cur == b { return -1; }
        cur := cur.nextSibling;
        i := i + 1;
      }
    }
    return if a != null then 1 else -1;
  }

  /** The node and its ancestors, collected upwards. */
  method Ancestors(n: Node, ghost nodes: set<Node>) returns (line: seq<Node>)
    requires IsForest(nodes) && n in nodes
    ensures line == Line(n, nodes)
  {
    line := [n];
    var cur := n;
    assert LinkedUp(n, nodes);
    while cur.parentNode != null
      invariant cur in nodes && line != [] && line[0] == cur
      invariant Line(n, nodes) == Line(cur, nodes)[..|Line(cur, nodes)| - 1] + line
      decreases cur.depth
    {
      assert LinkedUp(cur, nodes);
      cur := cur.parentNode;
      line := [cur] + line;
    }
  }

  /** Walks down two lines until they differ, or one of them ends. */
  method Discrepancy(ap: seq<Node>, bp: seq<Node>) returns (i: nat)
    ensures i <= |ap| && i <= |bp| && ap[..i] == bp[..i]
    ensures i == |ap| || i == |bp| || ap[i] != bp[i]
  {
    i := 0;
    while i < |ap| && i < |bp| && ap[i] == bp[i]
      invariant 0 <= i <= |ap| && i <= |bp| && ap[..i] == bp[..i]
    {
      i := i + 1;
    }
  }

  function IndexOf(s: seq<Node>, n: Node): (i: int)
    ensures -1 <= i < |s| && (i >= 0 <==> n in s)
    ensures i >= 0 ==> s[i] == n && n !in s[..i]
  {
    if s == [] then -1
    else
      var i := IndexOf(s[..|s| - 1], n);
      if i >= 0 then i else if s[|s| - 1] == n then |s| - 1 else -1
  }

  class Sorter {
    const doc: Node
    const preferredDoc: Node
    var sortInput: Option<seq<Node>>
    var hasDuplicate: bool

    constructor (doc: Node, preferredDoc: Node)
      ensures this.doc == doc && this.preferredDoc == preferredDoc
    {
      this.doc, this.preferredDoc, sortInput, hasDuplicate := doc, preferredDoc, None, false;
    }

    /** All of them are nodes of the document. */
    ghost predicate AllInDocument(s: seq<Node>, nodes: set<Node>)
      requires IsForest(nodes)
      reads nodes
    {
      AllUnder(s, doc, nodes)
    }

    /** A node of the document that is being searched. */
    ghost predicate InDocument(n: Node, nodes: set<Node>)
      requires IsForest(nodes)
      reads nodes
    {
      n in nodes && Root(n, nodes) == doc
    }

    /** The comparator without `compareDocumentPosition`. On the nodes of the document it is exactly
        document order; identical nodes are equal, and are remembered. In any other tree it is document
        order but for the root, which comes after all the rest. Between trees the document comes first,
        then nodes with a parent, and for the others the places in the input decide. */
    method SortOrder(a: Node, b: Node, ghost nodes: set<Node>) returns (r: int)
      requires IsForest(nodes) && a in nodes && b in nodes
      modifies this`hasDuplicate
      ensures hasDuplicate == (old(hasDuplicate) || a == b)
      ensures a == b ==> r == 0
      ensures InDocument(a, nodes) && InDocument(b, nodes) ==>
        (r < 0 <==> Precedes(a, b, nodes)) && (r > 0 <==> Precedes(b, a, nodes))
      ensures a != b && Root(a, nodes) == Root(b, nodes) && a.parentNode != null && b.parentNode != null ==>
        (r < 0 <==> Precedes(a, b, nodes)) && (r > 0 <==> Precedes(b, a, nodes))
      ensures a != b && Root(a, nodes) == Root(b, nodes) != doc ==>
        (a.parentNode == null ==> r > 0) && (b.parentNode == null ==> r < 0)
      ensures Root(a, nodes) != Root(b, nodes) && a.parentNode != null && b.parentNode != null ==>
        && (r < 0 <==> Root(a, nodes) == preferredDoc)
        && (r > 0 <==> Root(b, nodes) == preferredDoc)
      ensures Root(a, nodes) != Root(b, nodes) && (a.parentNode == null || b.parentNode == null) ==>
        && (a == doc ==> r < 0) && (b == doc ==> r > 0)
        && (doc !in {a, b} && a.parentNode != null ==> r < 0) && (doc !in {a, b} && b.parentNode != null ==> r > 0)
        && (doc !in {a, b} && a.parentNode == b.parentNode ==>
              r == if sortInput.Some? then IndexOf(sortInput.value, a) - IndexOf(sortInput.value, b) else 0)
    {
      assert LinkedUp(a, nodes) && LinkedUp(b, nodes);
      if a == b {
        hasDuplicate := true;
        BeforeIsTotal(Path(a, nodes), Path(a, nodes));
        return 0;
      }
      var aup, bup := a.parentNode, b.parentNode;
      if aup == null || bup == null {
        if Root(a, nodes) == Root(b, nodes) { RootOrder(a, b, nodes); }
        RootsAreParentless(a, b, nodes);
        return
          if a == doc then -1
          else if b == doc then 1
          else if aup != null then -1
          else if bup != null then 1
          else if sortInput.Some? then IndexOf(sortInput.value, a) - IndexOf(sortInput.value, b)
          else 0;
      } else if aup == bup {
        r := SiblingCheck(a, b, nodes);
        SiblingOrder(a, b, nodes);
        SiblingOrder(b, a, nodes);
        return;
      }
      r := AncestorOrder(a, b, nodes);
    }

    method AncestorOrder(a: Node, b: Node, ghost nodes: set<Node>) returns (r: int)
      requires IsForest(nodes) && a in nodes && b in nodes && a != b
      ensures if Root(a, nodes) == Root(b, nodes) then
          (r < 0 <==> Precedes(a, b, nodes)) && (r > 0 <==> Precedes(b, a, nodes))
        else (r < 0 <==> Root(a, nodes) == preferredDoc) && (r > 0 <==> Root(b, nodes) == preferredDoc)
    {
      var ap := Ancestors(a, nodes);
      var bp := Ancestors(b, nodes);
      var i := Discrepancy(ap, bp);
      if i > 0 {
        LinesPart(a, b, nodes, i);
        var x: Node?, y: Node? := if i < |ap| then ap[i] else null, if i < |bp| then bp[i] else null;
        r := SiblingCheck(x, y, nodes);
      } else {
        r := if ap[i] == preferredDoc then -1 else if bp[i] == preferredDoc then 1 else 0;
      }
    }

    /** Any sorting by `SortOrder` will do; this one inserts each node among those before it. It always
        compares equal nodes with each other. */
    method Sort(results: seq<Node>, ghost nodes: set<Node>) returns (r: seq<Node>)
      requires IsForest(nodes) && AllInDocument(results, nodes)
      modifies this`hasDuplicate
      ensures AllInDocument(r, nodes) && (forall n <- r :: n in nodes) && Ordered(r, nodes)
      ensures multiset(r) == multiset(results)
      ensures old(hasDuplicate) ==> hasDuplicate
      ensures !hasDuplicate ==> Distinct(r)
    {
      r := [];
      for k := 0 to |results|
        invariant AllInDocument(r, nodes) && (forall n <- r :: n in nodes) && Ordered(r, nodes)
        invariant multiset(r) == multiset(results[..k])
        invariant old(hasDuplicate) ==> hasDuplicate
        invariant !hasDuplicate ==> Distinct(r)
      {
        r := Insert(r, results[k], nodes);
        assert results[..k + 1] == results[..k] + [results[k]];
      }
      assert results[..|results|] == results;
    }

    method Insert(s: seq<Node>, n: Node, ghost nodes: set<Node>) returns (r: seq<Node>)
      requires IsForest(nodes) && AllInDocument(s, nodes) && (forall m <- s :: m in nodes) && Ordered(s, nodes)
      requires InDocument(n, nodes)
      modifies this`hasDuplicate
      ensures AllInDocument(r, nodes) && (forall m <- r :: m in nodes) && Ordered(r, nodes)
      ensures multiset(r) == multiset(s) + multiset{n}
      ensures old(hasDuplicate) ==> hasDuplicate
      ensures !hasDuplicate && Distinct(s) ==> Distinct(r)
    {
      var j := InsertionPoint(s, n, nodes);
      r := s[..j] + [n] + s[j..];
      InsertCount(s, n, j);
      InsertOk(s, n, j, nodes);
      if !hasDuplicate && Distinct(s) { InsertDistinct(s, n, j, nodes); }
    }

    method InsertionPoint(s: seq<Node>, n: Node, ghost nodes: set<Node>) returns (j: nat)
      requires IsForest(nodes) && AllInDocument(s, nodes) && InDocument(n, nodes)
      modifies this`hasDuplicate
      ensures j <= |s| && (old(hasDuplicate) ==> hasDuplicate)
      ensures forall k | j <= k < |s| :: Precedes(n, s[k], nodes)
      ensures j > 0 ==> if s[j - 1] == n then hasDuplicate else Precedes(s[j - 1], n, nodes)
    {
      j := |s|;
      while j > 0
        invariant 0 <= j <= |s| && (old(hasDuplicate) ==> hasDuplicate)
        invariant forall k | j <= k < |s| :: Precedes(n, s[k], nodes)
      {
        var order := SortOrder(s[j - 1], n, nodes);
        if order <= 0 {
          PrecedesIsStrictTotalOrder(s[j - 1], n, n, nodes);
          return;
        }
        j := j - 1;
      }
    }

    /** `Sizzle.uniqueSort`: every node once, in document order. */
    method UniqueSort(results: seq<Node>, detectDuplicates: bool, sortStable: bool, ghost nodes: set<Node>)
      returns (r: seq<Node>)
      requires IsForest(nodes) && AllInDocument(results, nodes)
      modifies this
      ensures (forall n :: n in r <==> n in results) && (forall n <- r :: n in nodes)
      ensures StrictlyOrdered(r, nodes)
      ensures sortInput == None
    {
      hasDuplicate := !detectDuplicates;
      sortInput := if sortStable then None else Some(results);
      r := Sort(results, nodes);
      SameElements(r, results);
      if hasDuplicate {
        r := WithoutRepeats(r, nodes);
      } else {
        DistinctOrdered(r, nodes);
      }
      sortInput := None;
    }
  }

  /** In document order, each node once. */
  ghost predicate StrictlyOrdered(s: seq<Node>, nodes: set<Node>)
    requires IsForest(nodes)
    reads nodes
  {
    forall i, j | 0 <= i < j < |s| :: s[i] in nodes && s[j] in nodes && s[i] != s[j] && Precedes(s[i], s[j], nodes)
  }

  ghost predicate AllUnder(s: seq<Node>, root: Node, nodes: set<Node>)
    requires IsForest(nodes)
    reads nodes
  {
    forall i {:trigger s[i]} | 0 <= i < |s| :: s[i] in nodes && Root(s[i], nodes) == root
  }

  ghost predicate Distinct(s: seq<Node>) {
    forall i, j | 0 <= i < j < |s| :: s[i] != s[j]
  }

  /** In document order; the same node may come several times in a row. */
  ghost predicate Ordered(s: seq<Node>, nodes: set<Node>)
    requires IsForest(nodes) && forall n <- s :: n in nodes
    reads nodes
  {
    forall i, j | 0 <= i < j < |s| :: s[i] == s[j] || Precedes(s[i], s[j], nodes)
  }

  /** A node without a parent is its own root; siblings have one root. */
  lemma RootsAreParentless(a: Node, b: Node, nodes: set<Node>)
    requires IsForest(nodes) && a in nodes && b in nodes
    ensures a.parentNode == null ==> Root(a, nodes) == a
    ensures b.parentNode == null ==> Root(b, nodes) == b
    ensures Root(a, nodes).parentNode == null && Root(b, nodes).parentNode == null
  {
    LineLinks(a, nodes, 0);
    LineLinks(b, nodes, 0);
  }

  lemma RootOrder(a: Node, b: Node, nodes: set<Node>)
    requires IsForest(nodes) && a in nodes && b in nodes && a != b && Root(a, nodes) == Root(b, nodes)
    ensures a.parentNode == null ==> Root(a, nodes) == a && Precedes(a, b, nodes) && !Precedes(b, a, nodes)
    ensures b.parentNode == null ==> Root(b, nodes) == b && Precedes(b, a, nodes) && !Precedes(a, b, nodes)
  {
    PrecedesIsStrictTotalOrder(a, b, b, nodes);
    LinesAgree(a, b, nodes, 0);
    PrecedesIsPreorder(a, b, nodes, 0);
    PrecedesIsPreorder(b, a, nodes, 0);
  }

  lemma SiblingOrder(a: Node, b: Node, nodes: set<Node>)
    requires IsForest(nodes) && a in nodes && b in nodes && a != b && a.parentNode != null
    requires a.parentNode == b.parentNode
    ensures Precedes(a, b, nodes) <==> a.index < b.index
  {
    assert LinkedUp(a, nodes) && LinkedUp(b, nodes);
    var p, q := Path(a, nodes), Path(b, nodes);
    BeforeAt(p, q, |p| - 1);
  }

  /** Where the lines of two nodes part, the paths decide. */
  lemma LinesPart(a: Node, b: Node, nodes: set<Node>, i: nat)
    requires IsForest(nodes) && a in nodes && b in nodes && a != b
    requires var s, t := Line(a, nodes), Line(b, nodes);
      0 < i <= |s| && i <= |t| && s[..i] == t[..i] && (i == |s| || i == |t| || s[i] != t[i])
    ensures i < |Line(a, nodes)| ==> Line(a, nodes)[i] in nodes
    ensures i < |Line(b, nodes)| ==> Line(b, nodes)[i] in nodes
    ensures var s, t := Line(a, nodes), Line(b, nodes);
      if i == |s| then i < |t| && Precedes(a, b, nodes) && !Precedes(b, a, nodes)
      else if i == |t| then Precedes(b, a, nodes) && !Precedes(a, b, nodes)
      else
        && s[i] in nodes && t[i] in nodes && s[i].parentNode != null && s[i].parentNode == t[i].parentNode
        && (Precedes(a, b, nodes) <==> s[i].index < t[i].index) && (Precedes(b, a, nodes) <==> t[i].index < s[i].index)
  {
    var s, t := Line(a, nodes), Line(b, nodes);
    var p, q := Path(a, nodes), Path(b, nodes);
    assert s[..i][0] == s[0] && t[..i][0] == t[0] && s[..i][i - 1] == s[i - 1] && t[..i][i - 1] == t[i - 1];
    LinesAgree(a, b, nodes, i - 1);
    if i < |s| { LineLinks(a, nodes, i); }
    if i < |t| { LineLinks(b, nodes, i); }
    if i < |s| && i < |t| { LinesAgree(a, b, nodes, i); }
    BeforeAt(p, q, i - 1);
    BeforeAt(q, p, i - 1);
  }

  lemma SameElements(s: seq<Node>, t: seq<Node>)
    requires multiset(s) == multiset(t)
    ensures forall n :: n in s <==> n in t
  {
    assert forall n :: n in s <==> n in multiset(s);
    assert forall n :: n in t <==> n in multiset(t);
  }

  lemma DistinctOrdered(s: seq<Node>, nodes: set<Node>)
    requires IsForest(nodes) && (forall n <- s :: n in nodes) && Ordered(s, nodes) && Distinct(s)
    ensures StrictlyOrdered(s, nodes)
  {}

  lemma InsertCount(s: seq<Node>, n: Node, j: nat)
    requires j <= |s|
    ensures multiset(s[..j] + [n] + s[j..]) == multiset(s) + multiset{n}
  {
    assert s == s[..j] + s[j..];
  }

  lemma InsertOk(s: seq<Node>, n: Node, j: nat, nodes: set<Node>)
    requires IsForest(nodes) && (forall m <- s :: m in nodes) && Ordered(s, nodes) && n in nodes && j <= |s|
    requires AllUnder(s, Root(n, nodes), nodes)
    requires forall k | j <= k < |s| :: Precedes(n, s[k], nodes)
    requires j > 0 ==> s[j - 1] == n || Precedes(s[j - 1], n, nodes)
    ensures var r := s[..j] + [n] + s[j..];
      (forall m <- r :: m in nodes) && Ordered(r, nodes) && AllUnder(r, Root(n, nodes), nodes)
  {
    var r := s[..j] + [n] + s[j..];
    assert forall i | 0 <= i < |r| :: r[i] == if i < j then s[i] else if i == j then n else s[i - 1];
    forall i | 0 <= i < j ensures s[i] == n || Precedes(s[i], n, nodes) {
      EarlierPrecedes(s, n, j, i, nodes);
    }
  }

  lemma InsertDistinct(s: seq<Node>, n: Node, j: nat, nodes: set<Node>)
    requires IsForest(nodes) && (forall m <- s :: m in nodes) && Ordered(s, nodes) && n in nodes && j <= |s|
    requires AllUnder(s, Root(n, nodes), nodes) && Distinct(s)
    requires forall k | j <= k < |s| :: Precedes(n, s[k], nodes)
    requires j > 0 ==> s[j - 1] != n && Precedes(s[j - 1], n, nodes)
    ensures Distinct(s[..j] + [n] + s[j..])
  {
    forall i | 0 <= i < j ensures s[i] != n { EarlierPrecedes(s, n, j, i, nodes); }
    forall k | j <= k < |s| ensures s[k] != n { PrecedesIsStrictTotalOrder(n, n, n, nodes); }
  }

  lemma EarlierPrecedes(s: seq<Node>, n: Node, j: nat, i: nat, nodes: set<Node>)
    requires IsForest(nodes) && (forall m <- s :: m in nodes) && Ordered(s, nodes) && n in nodes && i < j <= |s|
    requires AllUnder(s, Root(n, nodes), nodes)
    requires s[j - 1] == n || Precedes(s[j - 1], n, nodes)
    ensures s[i] == n || Precedes(s[i], n, nodes)
    ensures Distinct(s) && s[j - 1] != n ==> s[i] != n
  {
    if i < j - 1 && s[i] != s[j - 1] && s[j - 1] != n {
      PrecedesIsStrictTotalOrder(s[i], s[j - 1], n, nodes);
      PrecedesIsStrictTotalOrder(s[j - 1], n, n, nodes);
    }
  }

  /** What is left of `s` from `m` on when repeats go. */
  ghost function Kept(s: seq<Node>, m: nat): seq<Node>
    decreases |s| - m
  {
    if m >= |s| then [] else (if IsRepeat(s, m) then [] else [s[m]]) + Kept(s, m + 1)
  }

  predicate IsRepeat(s: seq<Node>, k: nat) {
    0 < k < |s| && s[k - 1] == s[k]
  }

  lemma {:induction false} KeptRun(s: seq<Node>, lo: nat, hi: nat)
    requires lo <= hi <= |s| && forall k | lo <= k < hi :: !IsRepeat(s, k)
    ensures Kept(s, lo) == s[lo..hi] + Kept(s, hi)
    decreases hi - lo
  {
    if lo < hi {
      KeptRun(s, lo + 1, hi);
      assert s[lo..hi] == [s[lo]] + s[lo + 1..hi];
      assert Kept(s, lo) == [s[lo]] + Kept(s, lo + 1);
      assert [s[lo]] + (s[lo + 1..hi] + Kept(s, hi)) == ([s[lo]] + s[lo + 1..hi]) + Kept(s, hi);
    }
  }

  lemma {:induction false} KeptElements(s: seq<Node>, m: nat)
    ensures forall n <- Kept(s, m) :: exists k | m <= k < |s| :: s[k] == n && !IsRepeat(s, k)
    ensures forall k | m <= k < |s| :: s[k] in Kept(s, m) || (m > 0 && s[k] == s[m - 1])
    decreases |s| - m
  {
    if m < |s| {
      KeptElements(s, m + 1);
      assert !IsRepeat(s, m) ==> s[m] in Kept(s, m);
    }
  }

  lemma {:induction false} KeptOrdered(s: seq<Node>, m: nat, nodes: set<Node>)
    requires IsForest(nodes) && (forall n <- s :: n in nodes) && Ordered(s, nodes)
    requires forall i, j | 0 <= i < j < |s| :: Root(s[i], nodes) == Root(s[j], nodes)
    ensures (forall n <- Kept(s, m) :: n in nodes) && StrictlyOrdered(Kept(s, m), nodes)
    decreases |s| - m
  {
    if m < |s| {
      KeptOrdered(s, m + 1, nodes);
      KeptElements(s, m + 1);
      forall n | n in Kept(s, m + 1) ensures n in nodes && s[m] != n && Precedes(s[m], n, nodes) {
        var k :| m + 1 <= k < |s| && s[k] == n && !IsRepeat(s, k);
        if k > m + 1 {
          PrecedesIsStrictTotalOrder(s[m], s[k - 1], s[k], nodes);
          PrecedesIsStrictTotalOrder(s[m], s[k], s[k], nodes);
        }
      }
      if !IsRepeat(s, m) {
        PrependOrdered(s[m], Kept(s, m + 1), nodes);
      }
    }
  }

  lemma PrependOrdered(n: Node, s: seq<Node>, nodes: set<Node>)
    requires IsForest(nodes) && n in nodes && StrictlyOrdered(s, nodes)
    requires forall m <- s :: m in nodes && m != n && Precedes(n, m, nodes)
    ensures StrictlyOrdered([n] + s, nodes)
  {
    var r := [n] + s;
    forall i, j | 0 <= i < j < |r|
      ensures r[i] in nodes && r[j] in nodes && r[i] != r[j] && Precedes(r[i], r[j], nodes)
    {
      assert s[j - 1] in s;
      if i > 0 { assert s[i - 1] in s; }
    }
  }

  /** The places of repeats are collected first; then they are cut out, from the last one back. */
  method WithoutRepeats(s: seq<Node>, ghost nodes: set<Node>) returns (r: seq<Node>)
    requires IsForest(nodes) && (forall n <- s :: n in nodes) && Ordered(s, nodes)
    requires forall i, j | 0 <= i < j < |s| :: Root(s[i], nodes) == Root(s[j], nodes)
    ensures (forall n :: n in r <==> n in s) && (forall n <- r :: n in nodes)
    ensures StrictlyOrdered(r, nodes)
  {
    var duplicates := Repeats(s);
    r := s;
    var j := |duplicates|;
    ghost var m := |s|;
    while j > 0
      invariant 0 <= j <= |duplicates| && m == (if j == |duplicates| then |s| else duplicates[j]) <= |s|
      invariant r == s[..m] + Kept(s, m)
    {
      j := j - 1;
      NoneBetween(s, duplicates, j, duplicates[j], m);
      CutOut(s, duplicates[j], m);
      r := r[..duplicates[j]] + r[duplicates[j] + 1..];
      m := duplicates[j];
    }
    NoneBetween(s, duplicates, -1, -1, m);
    KeptRun(s, 0, m);
    assert r == Kept(s, 0);
    KeptAll(s);
    KeptOrdered(s, 0, nodes);
  }

  lemma NoneBetween(s: seq<Node>, duplicates: seq<nat>, j: int, d: int, m: nat)
    requires -1 <= j < |duplicates| && d == (if j == -1 then -1 else duplicates[j])
    requires m == if j + 1 == |duplicates| then |s| else duplicates[j + 1]
    requires forall x, y | 0 <= x < y < |duplicates| :: duplicates[x] < duplicates[y]
    requires forall k: nat | IsRepeat(s, k) :: k in duplicates
    ensures forall k: nat | d < k < m :: !IsRepeat(s, k)
  {
    assert forall x | 0 <= x < |duplicates| :: if x <= j then duplicates[x] <= d else duplicates[x] >= m;
    assert forall k: nat | d < k < m :: k !in duplicates;
  }

  lemma CutOut(s: seq<Node>, d: nat, m: nat)
    requires d < m <= |s| && IsRepeat(s, d) && forall k: nat | d < k < m :: !IsRepeat(s, k)
    ensures var r := s[..m] + Kept(s, m); r[..d] + r[d + 1..] == s[..d] + Kept(s, d)
  {
    KeptRun(s, d + 1, m);
    assert s[..m] + Kept(s, m) == s[..d] + [s[d]] + (s[d + 1..m] + Kept(s, m));
    WithoutOne(s[..d], s[d], s[d + 1..m] + Kept(s, m));
  }

  lemma WithoutOne(before: seq<Node>, n: Node, after: seq<Node>)
    ensures var r := before + [n] + after; r[..|before|] + r[|before| + 1..] == before + after
  {
    var r := before + [n] + after;
    assert r[..|before|] == before;
    assert r[|before| + 1..] == after;
  }

  lemma KeptAll(s: seq<Node>)
    ensures forall n :: n in Kept(s, 0) <==> n in s
  {
    KeptElements(s, 0);
    forall n | n in s ensures n in Kept(s, 0) {
      var k :| 0 <= k < |s| && s[k] == n;
    }
  }

  method Repeats(s: seq<Node>) returns (duplicates: seq<nat>)
    ensures forall x | 0 <= x < |duplicates| :: IsRepeat(s, duplicates[x])
    ensures forall x, y | 0 <= x < y < |duplicates| :: duplicates[x] < duplicates[y]
    ensures forall k: nat | IsRepeat(s, k) :: k in duplicates
  {
    duplicates := [];
    var i := 0;
    while i < |s|
      invariant 0 <= i <= |s|
      invariant forall x | 0 <= x < |duplicates| :: duplicates[x] <= i && IsRepeat(s, duplicates[x])
      invariant forall x, y | 0 <= x < y < |duplicates| :: duplicates[x] < duplicates[y]
      invariant forall k: nat | IsRepeat(s, k) && k <= i :: k in duplicates
    {
      var elem := s[i];
      i := i + 1;
      if i < |s| && elem == s[i] {
        duplicates := duplicates + [i];
      }
    }
  }
}
