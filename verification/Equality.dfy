/** What the answer means for values without cycles, and for copies. */
module Equality {
  import opened Wrappers
  import opened ObjectGraphs
  import opened Numbers
  import opened Comparing

  /** There is no cycle below `v`. */
  ghost predicate Acyclic(h: Heap, rank: map<nat, nat>, v: Value) {
    GoesDown(h, rank) && (v.Ref? ==> v.id in rank)
  }

  ghost function Height(rank: map<nat, nat>, v: Value): nat {
    if v.Ref? && v.id in rank then rank[v.id] + 1 else 0
  }

  /** Structural equality of values without cycles, by recursion into their parts. */
  ghost predicate SameTree(h: Heap, rank: map<nat, nat>, v: Value, w: Value)
    requires GoodHeap(h) && Known(h, v) && Known(h, w) && Acyclic(h, rank, v)
    decreases Height(rank, v)
  {
    v == w || (!IsNull(v) && !IsNull(w) &&
      var x, y := Unwrapped(h, v), Unwrapped(h, w);
      assert v.Ref? ==> Below(rank, h[v.id], rank[v.id]) && GoodObject(h, h[v.id]);
      assert x.Ref? ==> Below(rank, h[x.id], rank[x.id]) && GoodObject(h, h[x.id]);
      assert y.Ref? ==> GoodObject(h, h[y.id]);
      if LeafOf(h, x).Some? then
        LeafOf(h, x) == LeafOf(h, y) && LeafOf(h, x) != Some(DateLeaf(NaN))
      else
        && x.Ref? && y.Ref? && SameShape(h[x.id], h[y.id])
        && (h[x.id].ArrayObject? ==>
              forall i | 0 <= i < |h[x.id].items| :: SameTree(h, rank, h[x.id].items[i], h[y.id].items[i]))
        && (h[x.id].PlainObject? ==>
              forall k <- h[x.id].values :: SameTree(h, rank, h[x.id].values[k], h[y.id].values[k])))
  }

  lemma {:induction false} BisimilarMeansSameTree(h: Heap, rank: map<nat, nat>, r: Pairs, v: Value, w: Value)
    requires GoodHeap(h) && Known(h, v) && Known(h, w) && Acyclic(h, rank, v) && IsBisimulation(h, r)
    requires Alike(h, r, v, w)
    ensures SameTree(h, rank, v, w)
    decreases Height(rank, v)
  {
    if v != w {
      var x, y := Unwrapped(h, v), Unwrapped(h, w);
      if LeafOf(h, x).None? {
        assert PairOk(h, r, (x.id, y.id));
        assert v.Ref? ==> Below(rank, h[v.id], rank[v.id]) && GoodObject(h, h[v.id]);
        var o, p := h[x.id], h[y.id];
        assert Below(rank, o, rank[x.id]) && GoodObject(h, o) && GoodObject(h, p);
        if o.ArrayObject? {
          forall i | 0 <= i < |o.items| ensures SameTree(h, rank, o.items[i], p.items[i]) {
            assert AlikeAt(h, r, o, p, i);
            BisimilarMeansSameTree(h, rank, r, o.items[i], p.items[i]);
          }
        } else {
          forall k | k in o.values ensures SameTree(h, rank, o.values[k], p.values[k]) {
            assert AlikeUnder(h, r, o, p, k);
            BisimilarMeansSameTree(h, rank, r, o.values[k], p.values[k]);
          }
        }
      }
    }
  }

  /** The objects with the same tree below them. */
  ghost function TreePairs(h: Heap, rank: map<nat, nat>): Pairs
    requires GoodHeap(h) && GoesDown(h, rank)
  {
    set x, y | x in rank && y in h && x in h && (h[x].ArrayObject? || h[x].PlainObject?)
      && Known(h, Ref(x)) && Known(h, Ref(y)) && !h[y].Wrapper? && SameTree(h, rank, Ref(x), Ref(y)) :: (x, y)
  }

  lemma TreePairsMatch(h: Heap, rank: map<nat, nat>)
    requires GoodHeap(h) && GoesDown(h, rank)
    ensures IsBisimulation(h, TreePairs(h, rank))
  {
    var r := TreePairs(h, rank);
    forall p | p in r ensures PairOk(h, r, p) {
      var o, q := h[p.0], h[p.1];
      assert GoodObject(h, o) && GoodObject(h, q) && Below(rank, o, rank[p.0]);
      if o.ArrayObject? {
        forall i | 0 <= i < |o.items| ensures AlikeAt(h, r, o, q, i) {
          SameTreeMeansAlike(h, rank, o.items[i], q.items[i]);
        }
      } else {
        forall k | k in o.values ensures AlikeUnder(h, r, o, q, k) {
          SameTreeMeansAlike(h, rank, o.values[k], q.values[k]);
        }
      }
    }
  }

  lemma SameTreeMeansAlike(h: Heap, rank: map<nat, nat>, v: Value, w: Value)
    requires GoodHeap(h) && Known(h, v) && Known(h, w) && Acyclic(h, rank, v) && SameTree(h, rank, v, w)
    ensures Alike(h, TreePairs(h, rank), v, w)
  {
    assert v.Ref? ==> Below(rank, h[v.id], rank[v.id]) && GoodObject(h, h[v.id]);
    assert w.Ref? ==> GoodObject(h, h[w.id]);
    if v != w {
      var x, y := Unwrapped(h, v), Unwrapped(h, w);
      if LeafOf(h, x).None? {
        assert SameTree(h, rank, x, y);
      }
    }
  }

  lemma TreesFit(h: Heap, a: Value, b: Value, rank: map<nat, nat>)
    requires GoodHeap(h) && Known(h, a) && Known(h, b) && Acyclic(h, rank, a) && SameTree(h, rank, a, b)
    ensures Fits(h, Guide(TreePairs(h, rank), rank), [], [], a, b)
  {
    TreePairsMatch(h, rank);
    SameTreeMeansAlike(h, rank, a, b);
  }

  ghost function CopyPairs(copy: map<nat, nat>): Pairs {
    set x | x in copy :: (x, copy[x])
  }

  /** A copy of a graph: every object that has been copied is made like its copy, part by part. */
  ghost predicate IsCopy(h: Heap, copy: map<nat, nat>, a: Value, b: Value)
    requires GoodHeap(h)
  {
    IsBisimulation(h, CopyPairs(copy)) && a.Ref? && a.id in copy && b == Ref(copy[a.id])
      && a.id in h && !h[a.id].Wrapper? && copy[a.id] in h
  }

  lemma CopiesFit(h: Heap, a: Value, b: Value, copy: map<nat, nat>)
    requires GoodHeap(h) && Known(h, a) && Known(h, b) && IsCopy(h, copy, a, b)
    ensures Fits(h, Guide(CopyPairs(copy), map[]), [], [], a, b)
  {
    assert (a.id, b.id) in CopyPairs(copy);
    assert PairOk(h, CopyPairs(copy), (a.id, b.id));
    assert Functional(CopyPairs(copy));
  }

  /** `_.isEqual`. It says yes only to graphs that agree to any depth. Where the left value has no
      cycle it says yes exactly to structurally equal values; and it says yes to every deep copy,
      cycles and all. */
  method IsEqual(h: Heap, a: Value, b: Value) returns (r: bool)
    requires GoodHeap(h) && Known(h, a) && Known(h, b)
    ensures r ==> Bisimilar(h, a, b)
    ensures forall rank {:trigger Acyclic(h, rank, a)} | Acyclic(h, rank, a) :: r <==> SameTree(h, rank, a, b)
    ensures forall copy {:trigger IsCopy(h, copy, a, b)} | IsCopy(h, copy, a, b) :: r
  {
    var comparison := new Comparison(h);
    ghost var g := if g :| Fits(h, g, [], [], a, b) then g else Guide({}, map[]);
    r := comparison.Eq(a, b, g);
    if r {
      forall p | p in comparison.seen ensures PairOk(h, comparison.seen, p) {}
      assert IsBisimulation(h, comparison.seen);
    }
    forall rank | Acyclic(h, rank, a) ensures r <==> SameTree(h, rank, a, b) {
      if r { BisimilarMeansSameTree(h, rank, comparison.seen, a, b); }
      if SameTree(h, rank, a, b) { TreesFit(h, a, b, rank); }
    }
    forall copy | IsCopy(h, copy, a, b) ensures r { CopiesFit(h, a, b, copy); }
  }
}
