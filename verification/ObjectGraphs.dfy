/** Values and objects that Underscore's deep comparison walks over, and what it means to be alike. */
module ObjectGraphs {
  import opened Wrappers

  /** Numbers with the special cases that comparison has to get right. `Finite(0.0)` is +0. */
  datatype Number = NaN | NegativeZero | Finite(r: real) | Infinite(negative: bool)

  datatype Value = Undefined | Null | Bool(b: bool) | Num(n: Number) | Text(s: string) | Ref(id: nat)

  /** A constructor; those of plain objects are instances of themselves, in every frame. */
  datatype Constructor = Constructor(id: nat, instanceOfItself: bool)

  datatype Obj =
    | Wrapper(wrapped: Value)
    | StringObject(text: string)
    | NumberObject(number: Number)
    | BooleanObject(flag: bool)
    | DateObject(time: Number)
    | RegExpObject(source: string, global: bool, multiline: bool, ignoreCase: bool)
    | FunctionObject
    | ArrayObject(maker: Constructor, items: seq<Value>)
    | PlainObject(name: string, maker: Constructor, keys: seq<string>, values: map<string, Value>)

  type Heap = map<nat, Obj>

  /** What is compared by value, whether boxed or not. */
  datatype Leaf =
    | StringLeaf(s: string) | NumberLeaf(n: Number) | BooleanLeaf(b: bool) | DateLeaf(time: Number)
    | RegExpLeaf(source: string, global: bool, multiline: bool, ignoreCase: bool)

  predicate Known(h: Heap, v: Value) {
    v.Ref? ==> v.id in h
  }

  predicate IsNull(v: Value) {
    v.Undefined? || v.Null?
  }

  /** Dates are told by the clock, which knows no negative zero; a wrapper wraps something. */
  ghost predicate GoodObject(h: Heap, o: Obj) {
    match o
    case Wrapper(v) => Known(h, v) && !IsNull(v) && (v.Ref? ==> !h[v.id].Wrapper?)
    case DateObject(t) => t != NegativeZero
    case ArrayObject(_, items) => forall i | 0 <= i < |items| :: Known(h, items[i])
    case PlainObject(_, _, keys, values) =>
      && (forall i, j | 0 <= i < j < |keys| :: keys[i] != keys[j])
      && (forall k :: k in values <==> k in keys)
      && (forall k <- values :: Known(h, values[k]))
    case _ => true
  }

  ghost predicate GoodHeap(h: Heap) {
    forall x <- h :: GoodObject(h, h[x])
  }

  function Unwrapped(h: Heap, v: Value): Value
    requires Known(h, v)
  {
    if v.Ref? && h[v.id].Wrapper? then h[v.id].wrapped else v
  }

  function LeafOf(h: Heap, v: Value): Option<Leaf>
    requires Known(h, v)
  {
    match v
    case Bool(b) => Some(BooleanLeaf(b))
    case Num(n) => Some(NumberLeaf(n))
    case Text(s) => Some(StringLeaf(s))
    case Ref(id) =>
      (match h[id]
       case StringObject(s) => Some(StringLeaf(s))
       case NumberObject(n) => Some(NumberLeaf(n))
       case BooleanObject(b) => Some(BooleanLeaf(b))
       case DateObject(t) => Some(DateLeaf(t))
       case RegExpObject(s, g, m, i) => Some(RegExpLeaf(s, g, m, i))
       case _ => None)
    case _ => None
  }

  /** Objects made by different constructors are not alike, except plain objects of two frames. */
  predicate SameMaker(a: Constructor, b: Constructor) {
    a == b || (a.instanceOfItself && b.instanceOfItself)
  }

  type Pairs = set<(nat, nat)>

  /** Two values are alike if they are the same, or have the same leaf value, or are related. An
      invalid date is like nothing but itself. */
  ghost predicate Alike(h: Heap, r: Pairs, v: Value, w: Value)
    requires GoodHeap(h) && Known(h, v) && Known(h, w)
  {
    v == w || (!IsNull(v) && !IsNull(w) && AlikeInside(h, r, Unwrapped(h, v), Unwrapped(h, w)))
  }

  ghost predicate AlikeInside(h: Heap, r: Pairs, x: Value, y: Value)
    requires GoodHeap(h) && Known(h, x) && Known(h, y)
  {
    if LeafOf(h, x).Some? then LeafOf(h, x) == LeafOf(h, y) && LeafOf(h, x) != Some(DateLeaf(NaN))
    else x.Ref? && y.Ref? && (x.id, y.id) in r
  }

  /** Two objects agree in kind, and everything in one is alike to what is in its place in the other. */
  ghost predicate Matches(h: Heap, r: Pairs, x: nat, y: nat)
    requires GoodHeap(h) && x in h && y in h
  {
    && SameShape(h[x], h[y])
    && (h[x].ArrayObject? ==> forall i | 0 <= i < |h[x].items| :: AlikeAt(h, r, h[x], h[y], i))
    && (h[x].PlainObject? ==> forall k <- h[x].values :: AlikeUnder(h, r, h[x], h[y], k))
  }

  ghost predicate SameShape(o: Obj, p: Obj) {
    || (o.ArrayObject? && p.ArrayObject? && SameMaker(o.maker, p.maker) && |o.items| == |p.items|)
    || (o.PlainObject? && p.PlainObject? && o.name == p.name && SameMaker(o.maker, p.maker)
        && o.values.Keys == p.values.Keys)
  }

  ghost predicate AlikeAt(h: Heap, r: Pairs, o: Obj, p: Obj, i: nat)
    requires GoodHeap(h) && GoodObject(h, o) && GoodObject(h, p)
  {
    o.ArrayObject? && p.ArrayObject? && i < |o.items| && i < |p.items| && Alike(h, r, o.items[i], p.items[i])
  }

  ghost predicate AlikeUnder(h: Heap, r: Pairs, o: Obj, p: Obj, k: string)
    requires GoodHeap(h) && GoodObject(h, o) && GoodObject(h, p)
  {
    o.PlainObject? && p.PlainObject? && k in o.values && k in p.values && Alike(h, r, o.values[k], p.values[k])
  }

  ghost predicate PairOk(h: Heap, r: Pairs, p: (nat, nat))
    requires GoodHeap(h)
  {
    p.0 in h && p.1 in h && Matches(h, r, p.0, p.1)
  }

  /** Related objects match, to any depth. */
  ghost predicate IsBisimulation(h: Heap, r: Pairs)
    requires GoodHeap(h)
  {
    forall p {:trigger PairOk(h, r, p)} {:trigger p in r} | p in r :: PairOk(h, r, p)
  }

  ghost predicate Bisimilar(h: Heap, v: Value, w: Value)
    requires GoodHeap(h) && Known(h, v) && Known(h, w)
  {
    exists r {:trigger IsBisimulation(h, r)} :: IsBisimulation(h, r) && Alike(h, r, v, w)
  }

  lemma AlikeMore(h: Heap, r: Pairs, s: Pairs, v: Value, w: Value)
    requires GoodHeap(h) && Known(h, v) && Known(h, w) && r <= s && Alike(h, r, v, w)
    ensures Alike(h, s, v, w)
  {}

  lemma MatchesMore(h: Heap, r: Pairs, s: Pairs, x: nat, y: nat)
    requires GoodHeap(h) && x in h && y in h && r <= s && Matches(h, r, x, y)
    ensures Matches(h, s, x, y)
  {
    if h[x].ArrayObject? {
      forall i | 0 <= i < |h[x].items| ensures AlikeAt(h, s, h[x], h[y], i) { assert AlikeAt(h, r, h[x], h[y], i); }
    } else {
      forall k | k in h[x].values ensures AlikeUnder(h, s, h[x], h[y], k) { assert AlikeUnder(h, r, h[x], h[y], k); }
    }
  }

  predicate IsWrapper(h: Heap, v: Value)
    requires Known(h, v)
  {
    v.Ref? && h[v.id].Wrapper?
  }

  /** The value is an object with these contents. */
  ghost predicate Holds(h: Heap, v: Value, o: Obj) {
    v.Ref? && v.id in h && h[v.id] == o
  }

  /** `w` is an object around the primitive value `v`. */
  ghost predicate BoxOf(h: Heap, v: Value, w: Value) {
    match v
    case Text(s) => Holds(h, w, StringObject(s))
    case Num(n) => Holds(h, w, NumberObject(n))
    case Bool(b) => Holds(h, w, BooleanObject(b))
    case _ => false
  }

  /** `w` has the same value as an object `o` that is compared by value. */
  ghost predicate HasValueOf(h: Heap, o: Obj, w: Value) {
    match o
    case StringObject(s) => w == Text(s) || Holds(h, w, StringObject(s))
    case NumberObject(n) => w == Num(n) || Holds(h, w, NumberObject(n))
    case BooleanObject(b) => w == Bool(b) || Holds(h, w, BooleanObject(b))
    case DateObject(time) => time != NaN && Holds(h, w, DateObject(time))
    case RegExpObject(source, global, multiline, ignoreCase) =>
      && w.Ref? && w.id in h && h[w.id].RegExpObject? && h[w.id].source == source && h[w.id].global == global
      && h[w.id].multiline == multiline && h[w.id].ignoreCase == ignoreCase
    case _ => false
  }

  /** What primitive values are like: strings, numbers and booleans are like those of the same value,
      boxed or not, and undefined and null like themselves only. */
  lemma PrimitivesLike(h: Heap, v: Value, w: Value)
    requires GoodHeap(h) && Known(h, v) && Known(h, w) && !v.Ref? && !IsWrapper(h, w)
    ensures Bisimilar(h, v, w) <==> v == w || BoxOf(h, v, w)
  {
    assert IsBisimulation(h, {});
    assert Alike(h, {}, v, w) ==> Bisimilar(h, v, w);
  }

  /** What objects with a value are like: regular expressions with the same source and the same three
      flags, dates of the same time unless it is invalid, and functions themselves only. */
  lemma LeavesLike(h: Heap, x: nat, w: Value)
    requires GoodHeap(h) && x in h && Known(h, w) && !IsWrapper(h, w)
    requires !h[x].Wrapper? && !h[x].ArrayObject? && !h[x].PlainObject?
    ensures Bisimilar(h, Ref(x), w) <==> w == Ref(x) || HasValueOf(h, h[x], w)
  {
    assert IsBisimulation(h, {});
    assert Alike(h, {}, Ref(x), w) ==> Bisimilar(h, Ref(x), w);
    if r :| IsBisimulation(h, r) && Alike(h, r, Ref(x), w) {
      assert w.Ref? && (x, w.id) in r ==> PairOk(h, r, (x, w.id));
    }
  }

  /** Arrays and objects are like others of their kind only, with the same constructor or with two that
      are instances of themselves, of the same length or with the same keys. */
  lemma ObjectsLike(h: Heap, x: nat, w: Value)
    requires GoodHeap(h) && x in h && Known(h, w) && !IsWrapper(h, w) && (h[x].ArrayObject? || h[x].PlainObject?)
    requires Bisimilar(h, Ref(x), w)
    ensures w == Ref(x) || (w.Ref? && w.id in h &&
      var o, p := h[x], h[w.id];
      && (if o.ArrayObject? then p.ArrayObject? && |o.items| == |p.items|
          else p.PlainObject? && o.name == p.name && o.values.Keys == p.values.Keys)
      && (o.maker == p.maker || (o.maker.instanceOfItself && p.maker.instanceOfItself)))
  {
    var r :| IsBisimulation(h, r) && Alike(h, r, Ref(x), w);
    if w != Ref(x) { assert PairOk(h, r, (x, w.id)); }
  }
}
