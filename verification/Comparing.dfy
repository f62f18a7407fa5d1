/** Underscore's recursive comparison, with its two stacks of the objects being compared. */
module Comparing {
  import opened Wrappers
  import opened ObjectGraphs
  import opened Numbers

  datatype ClassName = StringClass | NumberClass | BooleanClass | DateClass | RegExpClass | ArrayClass | FunctionClass
    | WrapperClass | UndefinedClass | NullClass | Named(name: string)

  /** `toString.call(v)` */
  function ClassOf(h: Heap, v: Value): ClassName
    requires Known(h, v)
  {
    match v
    case Undefined => UndefinedClass
    case Null => NullClass
    case Bool(_) => BooleanClass
    case Num(_) => NumberClass
    case Text(_) => StringClass
    case Ref(id) =>
      match h[id]
      case Wrapper(_) => WrapperClass
      case StringObject(_) => StringClass
      case NumberObject(_) => NumberClass
      case BooleanObject(_) => BooleanClass
      case DateObject(_) => DateClass
      case RegExpObject(_, _, _, _) => RegExpClass
      case FunctionObject => FunctionClass
      case ArrayObject(_, _) => ArrayClass
      case PlainObject(name, _, _, _) => Named(name)
  }

  /** `a === b` */
  predicate StrictEquals(a: Value, b: Value) {
    if a.Num? && b.Num? then LooseEquals(a.n, b.n) else a == b
  }

  /** The `switch` on the class name: comparison by value, where there is one. */
  function CompareLeaves(a: Leaf, b: Leaf): bool {
    match (a, b)
    case (StringLeaf(s), StringLeaf(t)) => s == t
    case (NumberLeaf(n), NumberLeaf(m)) => SameNumber(n, m)
    case (BooleanLeaf(x), BooleanLeaf(y)) => LooseEquals(FromBool(x), FromBool(y))
    case (DateLeaf(x), DateLeaf(y)) => LooseEquals(x, y)
    case (RegExpLeaf(s, g, m, i), RegExpLeaf(s', g', m', i')) => s == s' && g == g' && m == m' && i == i'
    case _ => false
  }

  lemma LeavesByValue(h: Heap, r: Pairs, x: Value, y: Value)
    requires GoodHeap(h) && Known(h, x) && Known(h, y) && LeafOf(h, x).Some?
    ensures ClassOf(h, x) == ClassOf(h, y) ==> LeafOf(h, y).Some?
    ensures AlikeInside(h, r, x, y) <==>
      ClassOf(h, x) == ClassOf(h, y) && CompareLeaves(LeafOf(h, x).value, LeafOf(h, y).value)
  {
    if LeafOf(h, x).value.NumberLeaf? && LeafOf(h, y).Some? && LeafOf(h, y).value.NumberLeaf? {
      SameNumberMeansIdentical(LeafOf(h, x).value.n, LeafOf(h, y).value.n);
    }
  }

  /** A heap whose values below `v` contain no cycle: references go down in rank. */
  ghost predicate GoesDown(h: Heap, rank: map<nat, nat>) {
    forall x <- rank :: x in h && Below(rank, h[x], rank[x])
  }

  ghost predicate Below(rank: map<nat, nat>, o: Obj, n: nat) {
    match o
    case Wrapper(v) => RankedBelow(rank, v, n)
    case ArrayObject(_, items) => forall i | 0 <= i < |items| :: RankedBelow(rank, items[i], n)
    case PlainObject(_, _, _, values) => forall k <- values :: RankedBelow(rank, values[k], n)
    case _ => true
  }

  ghost predicate RankedBelow(rank: map<nat, nat>, v: Value, n: nat) {
    v.Ref? ==> v.id in rank && rank[v.id] < n
  }

  /** Each object on the left is related to one on the right only: the right side is a copy. */
  ghost predicate Functional(r: Pairs) {
    forall x, y, z {:trigger (x, y) in r, (x, z) in r} | (x, y) in r && (x, z) in r :: y == z
  }

  /** A reason why the comparison has to succeed: a relation that fits, and on the left either no
      cycle or, in the relation, no choice. */
  datatype Guide = Guide(r: Pairs, rank: map<nat, nat>)

  ghost predicate Fits(h: Heap, g: Guide, s: seq<nat>, t: seq<nat>, v: Value, w: Value)
    requires GoodHeap(h) && Known(h, v) && Known(h, w) && |s| == |t|
  {
    && IsBisimulation(h, g.r) && Alike(h, g.r, v, w) && OnStacks(g.r, s, t)
    && (Functional(g.r)
        || (GoesDown(h, g.rank)
            && (v.Ref? ==> v.id in g.rank && forall x <- s :: x in g.rank && g.rank[v.id] < g.rank[x])))
  }

  ghost predicate OnStacks(r: Pairs, s: seq<nat>, t: seq<nat>)
    requires |s| == |t|
  {
    forall i | 0 <= i < |s| :: (s[i], t[i]) in r
  }

  /** Every pair seen is still being compared, or matches as far as has been seen. */
  ghost predicate SeenOk(h: Heap, seen: Pairs, s: seq<nat>, t: seq<nat>)
    requires GoodHeap(h) && |s| == |t|
  {
    && OnStacks(seen, s, t)
    && forall p {:trigger p in seen} | p in seen :: p.0 in h && p.1 in h && (PairOk(h, seen, p) || Pending(s, t, p))
  }

  ghost predicate Pending(s: seq<nat>, t: seq<nat>, p: (nat, nat))
    requires |s| == |t|
  {
    exists i | 0 <= i < |s| :: (s[i], t[i]) == p
  }

  /** The same for two objects that are about to be compared part by part. */
  ghost predicate FitsObjects(h: Heap, g: Guide, s: seq<nat>, t: seq<nat>, x: nat, y: nat)
    requires GoodHeap(h) && |s| == |t|
  {
    && IsBisimulation(h, g.r) && (x, y) in g.r && OnStacks(g.r, s, t)
    && (Functional(g.r)
        || (GoesDown(h, g.rank) && x in g.rank && forall z <- s :: z in g.rank && g.rank[x] < g.rank[z]))
  }

  lemma FitsInside(h: Heap, g: Guide, s: seq<nat>, t: seq<nat>, v: Value, w: Value)
    requires GoodHeap(h) && Known(h, v) && Known(h, w) && |s| == |t| && Fits(h, g, s, t, v, w)
    requires v != w && LeafOf(h, Unwrapped(h, v)).None?
    ensures var x, y := Unwrapped(h, v), Unwrapped(h, w);
      x.Ref? && y.Ref? && FitsObjects(h, g, s, t, x.id, y.id) && PairOk(h, g.r, (x.id, y.id))
  {
    var x, y := Unwrapped(h, v), Unwrapped(h, w);
    assert PairOk(h, g.r, (x.id, y.id));
    if v.Ref? && v.id in g.rank && GoesDown(h, g.rank) {
      assert Below(g.rank, h[v.id], g.rank[v.id]);
    }
  }

  /** An object that fits is found on the stack only together with its partner. */
  lemma FoundFits(h: Heap, g: Guide, s: seq<nat>, t: seq<nat>, x: nat, y: nat, i: nat)
    requires GoodHeap(h) && |s| == |t| && i < |s| && s[i] == x && FitsObjects(h, g, s, t, x, y)
    ensures t[i] == y
  {
    assert (s[i], t[i]) in g.r;
    assert s[i] in s;
  }

  /** What fits for two objects fits for their parts, once the objects are on the stacks. */
  lemma PartFits(h: Heap, g: Guide, s: seq<nat>, t: seq<nat>, x: nat, y: nat, v: Value, w: Value)
    requires GoodHeap(h) && |s| == |t| && FitsObjects(h, g, s, t, x, y) && x in h
    requires Known(h, v) && Known(h, w) && Alike(h, g.r, v, w)
    requires GoesDown(h, g.rank) && x in g.rank ==> RankedBelow(g.rank, v, g.rank[x])
    ensures Fits(h, g, s + [x], t + [y], v, w)
  {
    assert OnStacks(g.r, s + [x], t + [y]);
    forall z | z in s + [x] ensures z in s || z == x {}
  }

  lemma Pushed(h: Heap, seen: Pairs, s: seq<nat>, t: seq<nat>, x: nat, y: nat)
    requires GoodHeap(h) && |s| == |t| && SeenOk(h, seen, s, t) && x in h && y in h
    ensures SeenOk(h, seen + {(x, y)}, s + [x], t + [y])
  {
    var more := seen + {(x, y)};
    forall p | p in more ensures p.0 in h && p.1 in h && (PairOk(h, more, p) || Pending(s + [x], t + [y], p)) {
      if p == (x, y) {
        assert ((s + [x])[|s|], (t + [y])[|s|]) == p;
      } else if PairOk(h, seen, p) {
        MatchesMore(h, seen, more, p.0, p.1);
      } else {
        var i :| 0 <= i < |s| && (s[i], t[i]) == p;
        assert ((s + [x])[i], (t + [y])[i]) == p;
      }
    }
  }

  lemma Popped(h: Heap, seen: Pairs, s: seq<nat>, t: seq<nat>, x: nat, y: nat)
    requires GoodHeap(h) && |s| == |t| && SeenOk(h, seen, s + [x], t + [y]) && PairOk(h, seen, (x, y))
    ensures SeenOk(h, seen, s, t) && (x, y) in seen
  {
    var s', t' := s + [x], t + [y];
    assert (s'[|s|], t'[|s|]) == (x, y);
    assert forall i | 0 <= i < |s| :: s'[i] == s[i] && t'[i] == t[i];
    forall p | p in seen ensures PairOk(h, seen, p) || Pending(s, t, p) {
      if !PairOk(h, seen, p) {
        var i :| 0 <= i < |s'| && (s'[i], t'[i]) == p;
        assert i < |s|;
        assert (s[i], t[i]) == p;
      }
    }
  }

  /** Both are arrays, or both are objects of the same class. */
  predicate SameKind(o: Obj, p: Obj) {
    (o.ArrayObject? && p.ArrayObject?) || (o.PlainObject? && p.PlainObject? && o.name == p.name)
  }

  class Comparison {
    const h: Heap
    var aStack: seq<nat>
    var bStack: seq<nat>
    ghost var seen: Pairs

    ghost predicate Valid()
      reads this
    {
      && GoodHeap(h) && |aStack| == |bStack|
      && (forall i, j | 0 <= i < j < |aStack| :: aStack[i] != aStack[j])
      && (forall x <- aStack :: x in h) && (forall y <- bStack :: y in h)
    }

    constructor (h: Heap)
      requires GoodHeap(h)
      ensures this.h == h && aStack == [] && bStack == [] && seen == {} && Valid()
    {
      this.h, aStack, bStack, seen := h, [], [], {};
    }

    /** The objects that are not being compared yet. */
    ghost function Free(): set<nat>
      reads this
    {
      set x | x in h && x !in aStack
    }

    method Eq(a: Value, b: Value, ghost g: Guide) returns (r: bool)
      requires Valid() && Known(h, a) && Known(h, b) && SeenOk(h, seen, aStack, bStack)
      modifies this
      ensures aStack == old(aStack) && bStack == old(bStack) && Valid() && old(seen) <= seen
      ensures r ==> SeenOk(h, seen, aStack, bStack) && Alike(h, seen, a, b)
      ensures Fits(h, g, aStack, bStack, a, b) ==> r
      decreases |Free()|, 2
    {
      if StrictEquals(a, b) {
        return !(a.Num? && IsZero(a.n)) || LooseEquals(Reciprocal(a.n), Reciprocal(b.n));
      }
      if IsNull(a) || IsNull(b) {
        return a == b;
      }
      var x, y := Unwrapped(h, a), Unwrapped(h, b);
      if ClassOf(h, x) != ClassOf(h, y) {
        return false;
      }
      if LeafOf(h, x).Some? {
        LeavesByValue(h, seen, x, y);
        LeavesByValue(h, g.r, x, y);
        return CompareLeaves(LeafOf(h, x).value, LeafOf(h, y).value);
      }
      if h[x.id].FunctionObject? {
        return false;
      }
      if Fits(h, g, aStack, bStack, a, b) { FitsInside(h, g, aStack, bStack, a, b); }
      r := EqObjects(x.id, y.id, g);
    }

    /** Linear search on the stack, from the top. */
    method Find(x: nat) returns (i: int)
      requires Valid()
      ensures -1 <= i < |aStack| && (i >= 0 ==> aStack[i] == x) && (i == -1 ==> x !in aStack)
    {
      i := |aStack| - 1;
      while i >= 0 && aStack[i] != x
        invariant -1 <= i < |aStack| && forall j | i < j < |aStack| :: aStack[j] != x
      {
        i := i - 1;
      }
    }

    /** Objects and arrays: part by part, unless the left one is already being compared. */
    method EqObjects(x: nat, y: nat, ghost g: Guide) returns (r: bool)
      requires Valid() && x in h && y in h && SameKind(h[x], h[y]) && SeenOk(h, seen, aStack, bStack)
      modifies this
      ensures aStack == old(aStack) && bStack == old(bStack) && Valid() && old(seen) <= seen
      ensures r ==> SeenOk(h, seen, aStack, bStack) && (x, y) in seen
      ensures FitsObjects(h, g, aStack, bStack, x, y) ==> r
      decreases |Free()|, 1
    {
      var i := Find(x);
      if i >= 0 {
        if FitsObjects(h, g, aStack, bStack, x, y) { FoundFits(h, g, aStack, bStack, x, y, i); }
        return bStack[i] == y;
      }
      assert (x, y) in g.r && IsBisimulation(h, g.r) ==> PairOk(h, g.r, (x, y));
      if !SameMaker(h[x].maker, h[y].maker) {
        return false;
      }
      r := EqParts(x, y, g);
    }

    /** The two objects are on the stacks while their parts are compared. */
    method EqParts(x: nat, y: nat, ghost g: Guide) returns (r: bool)
      requires Valid() && x in h && y in h && SameKind(h[x], h[y]) && SeenOk(h, seen, aStack, bStack)
      requires x !in aStack && SameMaker(h[x].maker, h[y].maker)
      modifies this
      ensures aStack == old(aStack) && bStack == old(bStack) && Valid() && old(seen) <= seen
      ensures r ==> SeenOk(h, seen, aStack, bStack) && (x, y) in seen
      ensures FitsObjects(h, g, aStack, bStack, x, y) ==> r
      decreases |Free()|, 0
    {
      ghost var s, t := aStack, bStack;
      Push(x, y);
      if h[x].ArrayObject? {
        r := EqItems(x, y, g, s, t);
      } else {
        r := EqProperties(x, y, g, s, t);
      }
      if r { Popped(h, seen, s, t, x, y); }
      aStack, bStack := aStack[..|aStack| - 1], bStack[..|bStack| - 1];
      assert aStack == s && bStack == t;
    }

    method Push(x: nat, y: nat)
      requires Valid() && x in h && y in h && SeenOk(h, seen, aStack, bStack) && x !in aStack
      modifies this
      ensures Valid() && aStack == old(aStack) + [x] && bStack == old(bStack) + [y] && old(seen) <= seen
      ensures SeenOk(h, seen, aStack, bStack) && |Free()| < |old(Free())|
    {
      Pushed(h, seen, aStack, bStack, x, y);
      ghost var free := Free();
      aStack, bStack, seen := aStack + [x], bStack + [y], seen + {(x, y)};
      assert Free() == free - {x} && x in free;
    }

    /** Arrays are compared from the end. */
    method EqItems(x: nat, y: nat, ghost g: Guide, ghost s: seq<nat>, ghost t: seq<nat>) returns (r: bool)
      requires Valid() && |s| == |t| && aStack == s + [x] && bStack == t + [y] && SeenOk(h, seen, aStack, bStack)
      requires h[x].ArrayObject? && h[y].ArrayObject? && SameMaker(h[x].maker, h[y].maker)
      modifies this
      ensures aStack == old(aStack) && bStack == old(bStack) && Valid() && old(seen) <= seen
      ensures r ==> SeenOk(h, seen, aStack, bStack) && PairOk(h, seen, (x, y))
      ensures FitsObjects(h, g, s, t, x, y) ==> r
      decreases |Free()|, 3, 1
    {
      assert FitsObjects(h, g, s, t, x, y) ==> PairOk(h, g.r, (x, y));
      var a, b := h[x].items, h[y].items;
      var size := |a|;
      r := size == |b|;
      if r {
        while size > 0
          invariant 0 <= size <= |a| == |b|
          invariant aStack == old(aStack) && bStack == old(bStack) && Valid() && old(seen) <= seen
          invariant SeenOk(h, seen, aStack, bStack) && r
          invariant forall i | size <= i < |a| :: AlikeAt(h, seen, h[x], h[y], i)
        {
          size := size - 1;
          r := EqItem(x, y, g, s, t, size);
          if !r { break; }
        }
      }
    }

    method EqItem(x: nat, y: nat, ghost g: Guide, ghost s: seq<nat>, ghost t: seq<nat>, size: nat) returns (r: bool)
      requires Valid() && |s| == |t| && aStack == s + [x] && bStack == t + [y] && SeenOk(h, seen, aStack, bStack)
      requires h[x].ArrayObject? && h[y].ArrayObject? && size < |h[x].items| == |h[y].items|
      requires forall i | size < i < |h[x].items| :: AlikeAt(h, seen, h[x], h[y], i)
      modifies this
      ensures aStack == old(aStack) && bStack == old(bStack) && Valid() && old(seen) <= seen
      ensures r ==> SeenOk(h, seen, aStack, bStack) && forall i | size <= i < |h[x].items| ::
        AlikeAt(h, seen, h[x], h[y], i)
      ensures FitsObjects(h, g, s, t, x, y) ==> r
      decreases |Free()|, 3, 0
    {
      assert GoodObject(h, h[x]) && GoodObject(h, h[y]);
      if FitsObjects(h, g, s, t, x, y) {
        assert PairOk(h, g.r, (x, y));
        assert AlikeAt(h, g.r, h[x], h[y], size);
        PartFits(h, g, s, t, x, y, h[x].items[size], h[y].items[size]);
      }
      r := Eq(h[x].items[size], h[y].items[size], g);
      if r {
        forall i | size < i < |h[x].items| ensures AlikeAt(h, seen, h[x], h[y], i) {
          assert AlikeAt(h, old(seen), h[x], h[y], i);
          AlikeMore(h, old(seen), seen, h[x].items[i], h[y].items[i]);
        }
      }
    }

    /** Properties are compared in the order of the left object; then the right one may have no more. */
    method EqProperties(x: nat, y: nat, ghost g: Guide, ghost s: seq<nat>, ghost t: seq<nat>) returns (r: bool)
      requires Valid() && |s| == |t| && aStack == s + [x] && bStack == t + [y] && SeenOk(h, seen, aStack, bStack)
      requires h[x].PlainObject? && h[y].PlainObject? && h[x].name == h[y].name && SameMaker(h[x].maker, h[y].maker)
      modifies this
      ensures aStack == old(aStack) && bStack == old(bStack) && Valid() && old(seen) <= seen
      ensures r ==> SeenOk(h, seen, aStack, bStack) && PairOk(h, seen, (x, y))
      ensures FitsObjects(h, g, s, t, x, y) ==> r
      decreases |Free()|, 3, 1
    {
      assert FitsObjects(h, g, s, t, x, y) ==> PairOk(h, g.r, (x, y));
      assert GoodObject(h, h[x]) && GoodObject(h, h[y]);
      var keys := h[x].keys;
      var size := 0;
      r := true;
      while size < |keys|
        invariant 0 <= size <= |keys|
        invariant aStack == old(aStack) && bStack == old(bStack) && Valid() && old(seen) <= seen
        invariant SeenOk(h, seen, aStack, bStack) && r
        invariant forall i | 0 <= i < size :: AlikeUnder(h, seen, h[x], h[y], keys[i])
      {
        r := EqProperty(x, y, g, s, t, size);
        size := size + 1;
        if !r { break; }
      }
      if r {
        r := CountKeys(h[y].keys, size);
        SameKeys(h[x], h[y]);
        if r { assert PairOk(h, seen, (x, y)); }
      }
    }

    /** `_.has(b, key) && eq(a[key], b[key], aStack, bStack)` */
    method EqProperty(x: nat, y: nat, ghost g: Guide, ghost s: seq<nat>, ghost t: seq<nat>, size: nat) returns (r: bool)
      requires Valid() && |s| == |t| && aStack == s + [x] && bStack == t + [y] && SeenOk(h, seen, aStack, bStack)
      requires h[x].PlainObject? && h[y].PlainObject? && size < |h[x].keys|
      requires forall i | 0 <= i < size :: AlikeUnder(h, seen, h[x], h[y], h[x].keys[i])
      modifies this
      ensures aStack == old(aStack) && bStack == old(bStack) && Valid() && old(seen) <= seen
      ensures r ==> SeenOk(h, seen, aStack, bStack) && forall i | 0 <= i <= size ::
        AlikeUnder(h, seen, h[x], h[y], h[x].keys[i])
      ensures FitsObjects(h, g, s, t, x, y) ==> r
      decreases |Free()|, 3, 0
    {
      assert GoodObject(h, h[x]) && GoodObject(h, h[y]);
      var key := h[x].keys[size];
      if FitsObjects(h, g, s, t, x, y) {
        assert PairOk(h, g.r, (x, y));
        assert AlikeUnder(h, g.r, h[x], h[y], key);
        PartFits(h, g, s, t, x, y, h[x].values[key], h[y].values[key]);
      }
      if key !in h[y].values {
        return false;
      }
      r := Eq(h[x].values[key], h[y].values[key], g);
      if r {
        forall i | 0 <= i < size ensures AlikeUnder(h, seen, h[x], h[y], h[x].keys[i]) {
          assert AlikeUnder(h, old(seen), h[x], h[y], h[x].keys[i]);
          AlikeMore(h, old(seen), seen, h[x].values[h[x].keys[i]], h[y].values[h[x].keys[i]]);
        }
      }
    }
  }

  /** The second loop: `size` is counted down once for each key, and must come out even. */
  method CountKeys(keys: seq<string>, expected: int) returns (r: bool)
    requires expected >= 0
    ensures r <==> |keys| == expected
  {
    var size := expected;
    for i := 0 to |keys|
      invariant size == expected - i >= 0
    {
      var none := size == 0;
      size := size - 1;
      if none { break; }
    }
    return size == 0;
  }

  /** With as many keys on the right as on the left, and all the left ones there, there are no others. */
  lemma SameKeys(o: Obj, p: Obj)
    requires o.PlainObject? && p.PlainObject?
    requires forall i, j | 0 <= i < j < |o.keys| :: o.keys[i] != o.keys[j]
    requires forall i, j | 0 <= i < j < |p.keys| :: p.keys[i] != p.keys[j]
    requires (forall k :: k in o.values <==> k in o.keys) && (forall k :: k in p.values <==> k in p.keys)
    ensures |o.keys| == |p.keys| && o.values.Keys <= p.values.Keys ==> o.values.Keys == p.values.Keys
    ensures o.values.Keys == p.values.Keys ==> |o.keys| == |p.keys|
  {
    DistinctCount(o.keys, o.values.Keys);
    DistinctCount(p.keys, p.values.Keys);
    if |o.keys| == |p.keys| && o.values.Keys <= p.values.Keys {
      SubsetOfSize(o.values.Keys, p.values.Keys);
    }
  }

  lemma {:induction false} DistinctCount(s: seq<string>, keys: set<string>)
    requires (forall i, j | 0 <= i < j < |s| :: s[i] != s[j]) && forall k :: k in keys <==> k in s
    ensures |keys| == |s|
  {
    if s != [] {
      var last := s[|s| - 1];
      assert s == s[..|s| - 1] + [last];
      DistinctCount(s[..|s| - 1], keys - {last});
    }
  }

  lemma SubsetOfSize(a: set<string>, b: set<string>)
    requires a <= b && |a| == |b|
    ensures a == b
  {
    assert |b - a| == |b| - |a|;
  }
}
