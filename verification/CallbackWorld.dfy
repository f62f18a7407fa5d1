/**
 The operations of jQuery.Callbacks and jQuery.Deferred. They are re-entrant: a callback may call
 any of them, on the very list that is calling it.
 */
module CallbackOperations {
  import opened Wrappers
  import opened CallbackLists
  import opened CallbackViews
  import opened CallbackSteps
  import opened Callbacks
  import opened CallbackFiring
  import opened CallbackMoves
  import opened CallbackEnding

  function Has(s: seq<Entry>, fn: Fn): bool {
    exists k | 0 <= k < |s| :: s[k].fn == fn
  }

  /** What `add` appends: everything, or under `unique` only what is not there yet. */
  function WithAdded(s: seq<Entry>, fns: seq<Fn>, unique: bool, tag: nat): seq<Entry>
    decreases |fns|
  {
    if fns == [] then s
    else if unique && Has(s, fns[0]) then WithAdded(s, fns[1..], unique, tag)
    else WithAdded(s + [Entry(fns[0], tag)], fns[1..], unique, tag + 1)
  }

  function IndexOf(s: seq<Entry>, fn: Fn, from: nat): (i: int)
    ensures i == -1 || (from <= i < |s| && s[i].fn == fn)
    ensures forall k | from <= k < |s| && (i == -1 || k < i) :: s[k].fn != fn
    decreases |s| - from
  {
    if from >= |s| then -1 else if s[from].fn == fn then from else IndexOf(s, fn, from + 1)
  }

  function Without(s: seq<Entry>, fn: Fn): (r: seq<Entry>)
    ensures !Has(r, fn)
    ensures |r| <= |s| && forall e :: e in r <==> e in s && e.fn != fn
  {
    if s == [] then []
    else if s[0].fn == fn then Without(s[1..], fn)
    else [s[0]] + Without(s[1..], fn)
  }

  function WithoutAll(s: seq<Entry>, fns: seq<Fn>): seq<Entry>
    decreases |fns|
  {
    if fns == [] then s else WithoutAll(Without(s, fns[0]), fns[1..])
  }

  lemma WithAddedNext(s: seq<Entry>, fns: seq<Fn>, i: nat, unique: bool, tag: nat)
    requires i < |fns|
    ensures WithAdded(s, fns[i..], unique, tag) ==
      if unique && Has(s, fns[i]) then WithAdded(s, fns[i + 1..], unique, tag)
      else WithAdded(s + [Entry(fns[i], tag)], fns[i + 1..], unique, tag + 1)
  {
    assert fns[i..][1..] == fns[i + 1..];
  }

  /** Without `unique`, everything is appended in order. */
  lemma {:induction false} WithAddedAll(s: seq<Entry>, fns: seq<Fn>, tag: nat)
    ensures var r := WithAdded(s, fns, false, tag);
      && s <= r && |r| == |s| + |fns|
      && forall i | 0 <= i < |fns| :: r[|s| + i] == Entry(fns[i], tag + i)
    decreases |fns|
  {
    if fns != [] {
      var t := s + [Entry(fns[0], tag)];
      WithAddedAll(t, fns[1..], tag + 1);
      var r := WithAdded(s, fns, false, tag);
      assert r[|s|] == t[|s|];
      forall i | 0 < i < |fns| ensures r[|s| + i] == Entry(fns[i], tag + i) {
        assert r[|t| + (i - 1)] == Entry(fns[1..][i - 1], tag + 1 + (i - 1));
      }
    }
  }

  /** Under `unique`, what is not there yet is appended once each. */
  lemma {:induction false} WithAddedOnce(s: seq<Entry>, fns: seq<Fn>, tag: nat)
    ensures var r := WithAdded(s, fns, true, tag);
      && s <= r && (forall fn <- fns :: Has(r, fn))
      && forall k | |s| <= k < |r| :: r[k].fn in fns && r[k].tag == tag + (k - |s|) && !Has(r[..k], r[k].fn)
    decreases |fns|
  {
    if fns != [] {
      var r := WithAdded(s, fns, true, tag);
      if Has(s, fns[0]) {
        WithAddedOnce(s, fns[1..], tag);
        var k :| 0 <= k < |s| && s[k].fn == fns[0];
        assert r[k].fn == fns[0];
      } else {
        var t := s + [Entry(fns[0], tag)];
        WithAddedOnce(t, fns[1..], tag + 1);
        assert r[|s|] == t[|s|] && r[..|s|] == s;
      }
      forall fn | fn in fns ensures Has(r, fn) {
        if fn != fns[0] { assert fn in fns[1..]; }
      }
    }
  }

  /** The callbacks have joined list `l` under the next numbers; a list that has not fired changes in
      nothing else. */
  ghost predicate Joined(a: View, b: View, l: nat, fns: seq<nat>) {
    && l in a.lists && l in b.lists && l in b.hist && a.lists[l].list.Some?
    && (forall i | 0 <= i < |fns| :: Named(b.hist[l], Entry(User(fns[i]), a.nextTag + i)))
    && (!a.lists[l].fired ==>
          && b.states == a.states && b.calls == a.calls && b.lists == a.lists[l := b.lists[l]]
          && b.lists[l].list.Some?
          && var s, r := a.lists[l].list.value, b.lists[l].list.value;
            && s <= r && |r| == |s| + |fns|
            && forall i | 0 <= i < |fns| :: r[|s| + i] == Entry(User(fns[i]), a.nextTag + i))
  }

  /** What a call on a list of its own has done. */
  ghost predicate DidOnList(action: Action, a: View, b: View, l: nat)
    requires l in a.lists && l in a.hist
  {
    l in b.lists && l in b.hist &&
    match action
    case AddTo(_, fns) =>
      if a.lists[l].list.None? then b == a
      else if !a.lists[l].options.unique then Joined(a, b, l, fns)
      else
        a.lists[l].memory.None? ==>
          b.lists[l].list == Some(WithAdded(a.lists[l].list.value, Users(fns), true, a.nextTag)) && b.calls == a.calls
    case RemoveFrom(_, fns) =>
      && b.calls == a.calls && b.lists[l].list.Some? == a.lists[l].list.Some?
      && (a.lists[l].list.Some? ==> b.lists[l].list.value == WithoutAll(a.lists[l].list.value, Users(fns)))
    case FireList(_, data) =>
      if a.lists[l].list.None? || (a.lists[l].fired && a.lists[l].stack.None?) then b == a
      else a.hist[l].requested + [data] <= b.hist[l].requested
    case EmptyList(_) => b.lists[l].list == Some([]) && b.calls == a.calls
    case Disable(_) => b.lists[l].list.None? && b.lists[l].stack.None? && b.lists[l].memory.None?
    case Lock(_) =>
      b.lists[l].stack.None? && b.lists[l].list == if a.lists[l].memory.None? then None else a.lists[l].list
    case _ => true
  }

  /** What a call of a function of Deferred `d` has done: `done` adds to list d, `fail` to d + 1,
      `progress` to d + 2; the first settling call sets the state and is delivered on list d or d + 1;
      `notify` is accepted on list d + 2 while the Deferred is pending. */
  ghost predicate DidOnDeferred(action: Action, a: View, b: View, d: nat)
    requires d in a.states
  {
    d in b.states &&
    match action
    case Done(_, fns) => if a.states[d] == Rejected then b == a else Joined(a, b, d, fns)
    case Fail(_, fns) => if a.states[d] == Resolved then b == a else Joined(a, b, d + 1, fns)
    case Progress(_, fns) => (a.states[d] != Pending && b == a) || Joined(a, b, d + 2, fns)
    case Settle(_, resolve, data) =>
      if a.states[d] != Pending then b == a
      else if resolve then b.states[d] == Resolved && d in b.hist && b.hist[d].delivered == [data]
      else b.states[d] == Rejected && d + 1 in b.hist && b.hist[d + 1].delivered == [data]
    case Notify(_, data) =>
      if a.states[d] != Pending then b == a
      else d + 2 in a.hist && d + 2 in b.hist && a.hist[d + 2].requested + [data] <= b.hist[d + 2].requested
    case _ => true
  }

  predicate OnDeferred(action: Action) {
    action.Done? || action.Fail? || action.Progress? || action.Settle? || action.Notify?
  }

  predicate OnList(action: Action) {
    action.AddTo? || action.RemoveFrom? || action.FireList? || action.EmptyList? || action.Disable? || action.Lock?
  }

  /** What a call of foreign code has done. The lists of a Deferred are out of its reach. */
  ghost predicate Did(action: Action, a: View, b: View) {
    if OnDeferred(action) then action.d in a.states ==> DidOnDeferred(action, a, b, action.d)
    else if OnList(action) then
      action.l in a.lists && action.l in a.hist && !OwnedByDeferred(a, action.l) ==> DidOnList(action, a, b, action.l)
    else
      match action
      case NewCallbacks(options) =>
        a.nextId in b.lists && b.lists[a.nextId].options == options && b.lists[a.nextId].list == Some([])
      case NewDeferred => a.nextId in b.states && b.states[a.nextId] == Pending
      case _ => b == a
  }

  /** The action has had its effect, and more may have happened since. */
  ghost predicate FirstDone(action: Action, a: View, c: View) {
    exists b: View :: DoneAt(action, a, b) && Evolves(b, c)
  }

  ghost predicate DoneAt(action: Action, a: View, b: View) {
    Did(action, a, b) && b.lists.Keys == b.hist.Keys
  }

  lemma FirstIsDone(action: Action, a: View, b: View)
    requires Did(action, a, b) && b.lists.Keys == b.hist.Keys
    ensures FirstDone(action, a, b)
  {
    EvolvesNothing(b);
    assert DoneAt(action, a, b) && Evolves(b, b);
  }

  lemma FirstStaysDone(action: Action, a: View, c: View, d: View)
    requires FirstDone(action, a, c) && Evolves(c, d) && c.lists.Keys == c.hist.Keys
    ensures FirstDone(action, a, d)
  {
    var b: View :| DoneAt(action, a, b) && Evolves(b, c);
    EvolvesTransitive(b, c, d);
  }

  ghost predicate NowNamed(h: History, tag: nat, fns: seq<Fn>) {
    forall i | 0 <= i < |fns| :: Named(h, Entry(fns[i], tag + i))
  }

  lemma PushedNames(v: View, l: nat, s: seq<Entry>, fns: seq<Fn>, tag: nat)
    requires l in v.lists && l in v.hist && CanAdd(v, l)
    requires v.lists[l].list == Some(WithAdded(s, fns, false, tag))
    ensures NowNamed(v.hist[l], tag, fns)
  {
    ListIn(v, {l}, l);
    WithAddedAll(s, fns, tag);
    var r := v.lists[l].list.value;
    forall i | 0 <= i < |fns| ensures Named(v.hist[l], Entry(fns[i], tag + i)) {
      assert r[|s| + i] == Entry(fns[i], tag + i) && Named(v.hist[l], r[|s| + i]);
    }
  }

  lemma NamedStays(h: History, h': History, tag: nat, fns: seq<Fn>)
    requires NowNamed(h, tag, fns) && NamesGrew(h, h')
    ensures NowNamed(h', tag, fns)
  {
    forall i | 0 <= i < |fns| ensures Named(h', Entry(fns[i], tag + i)) {
      assert Named(h, Entry(fns[i], tag + i));
    }
  }

  /** What `add` promises, for a list that takes every callback. */
  lemma JoinedAll(a: View, b: View, l: nat, fns: seq<nat>)
    requires Inv(a, {}) && l in a.lists && a.lists[l].list.Some? && l in b.lists && l in b.hist
    requires NowNamed(b.hist[l], a.nextTag, Users(fns))
    requires !a.lists[l].firing && a.lists[l].memory.None? ==>
      OnlyPushed(a, b, l) &&
      b.lists[l].list == Some(WithAdded(a.lists[l].list.value, Users(fns), false, a.nextTag))
    ensures Joined(a, b, l, fns)
  {
    ListIn(a, {}, l);
    var s, us := a.lists[l].list.value, Users(fns);
    WithAddedAll(s, us, a.nextTag);
    var r := WithAdded(s, us, false, a.nextTag);
    forall i | 0 <= i < |fns|
      ensures Named(b.hist[l], Entry(User(fns[i]), a.nextTag + i))
      ensures r[|s| + i] == Entry(User(fns[i]), a.nextTag + i)
    {
      assert us[i] == User(fns[i]) && r[|s| + i] == Entry(us[i], a.nextTag + i);
    }
  }

  /** A done or fail list that has delivered something has settled its Deferred. */
  lemma DeliveredSettles(v: View, d: nat, resolve: bool, data: Data)
    requires Inv(v, {}) && d in v.states && SettleList(d, resolve) in v.hist
    requires [data] <= v.hist[SettleList(d, resolve)].delivered
    ensures v.states[d] == SettledState(resolve) && v.hist[SettleList(d, resolve)].delivered == [data]
  {
    DeferredIn(v, {}, d);
    ListIn(v, {}, SettleList(d, resolve));
    assert v.hist[SettleList(d, resolve)].delivered[0] == data;
  }

  lemma {:induction false} WithoutRemoved(s: seq<Entry>, fn: Fn, i: nat)
    requires i < |s| && s[i].fn == fn
    ensures Without(Removed(s, i), fn) == Without(s, fn)
  {
    if i == 0 {
      assert Removed(s, 0) == s[1..];
    } else {
      WithoutRemoved(s[1..], fn, i - 1);
      assert Removed(s, i)[1..] == Removed(s[1..], i - 1);
    }
  }

  lemma {:induction false} WithoutNothing(s: seq<Entry>, fn: Fn)
    requires !Has(s, fn)
    ensures Without(s, fn) == s
  {
    if s != [] {
      forall k | 0 <= k < |s[1..]| ensures s[1..][k].fn != fn {
        assert s[k + 1].fn != fn;
      }
      WithoutNothing(s[1..], fn);
    }
  }

  /** Pass number `k` of the list has been delivered in full, or broken off; the latter only if the
      list stops on false, or foreign code may empty, disable or lock it. */
  ghost predicate Delivered(v: View, l: nat, k: nat, data: Data, tags: set<nat>) {
    l in v.hist && ((k in v.hist[l].broken && !Safe(v, l))
      || exists i | 0 <= i < |v.passes| :: Covers(v.passes[i], l, k, data, tags))
  }

  ghost predicate Covers(p: Pass, l: nat, k: nat, data: Data, tags: set<nat>) {
    p.l == l && p.number == k && p.data == data && tags <= p.entered
  }

  lemma StillDelivered(v: View, w: View, l: nat, k: nat, data: Data, tags: set<nat>)
    requires Delivered(v, l, k, data, tags) && Evolves(v, w) && l in v.lists
    ensures Delivered(w, l, k, data, tags)
  {
    assert ListEvolves(v.lists[l], v.hist[l], w.lists[l], w.hist[l]);
    if i :| 0 <= i < |v.passes| && Covers(v.passes[i], l, k, data, tags) {
      assert w.passes[i] == v.passes[i];
    }
  }

  ghost function TagsFrom(s: seq<Entry>, from: nat): set<nat> {
    set k | from <= k < |s| :: s[k].tag
  }

  /** After a pass: either the next call in the queue can be fired, or the list can come to rest. */
  ghost predicate CanGoOn(v: View, l: nat)
    requires l in v.lists && l in v.hist
  {
    var c := v.lists[l];
    && (c.list.Some? && c.stack.Some? && c.stack.value != [] ==>
          CanFire(v, l, c.stack.value[0], Queued) && SettleCanFire(v, l, Queued))
    && ((c.stack.Some? && c.stack.value != []) || Inv(PutList(v, l, Retired(c), v.hist[l]), {}))
  }

  ghost function Dequeued(stack: Option<seq<Data>>, source: Source): Option<seq<Data>> {
    if source == Queued && stack.Some? && stack.value != [] then Some(stack.value[1..]) else stack
  }

  lemma DeliveredLess(v: View, l: nat, k: nat, data: Data, tags: set<nat>, more: set<nat>)
    requires Delivered(v, l, k, data, more) && tags <= more
    ensures Delivered(v, l, k, data, tags)
  {
    if i :| 0 <= i < |v.passes| && Covers(v.passes[i], l, k, data, more) {
      assert Covers(v.passes[i], l, k, data, tags);
    }
  }

  class CallbackWorld {
    var lists: map<nat, CbList>
    var states: map<nat, State>
    var nextTag: nat
    var nextId: nat
    ghost var hist: map<nat, History>
    ghost var calls: seq<Call>
    ghost var passes: seq<Pass>
    ghost const care: Care

    ghost function V(): View
      reads this
    {
      View(lists, hist, states, nextTag, nextId, calls, passes, care)
    }

    constructor (ghost care: Care)
      ensures Inv(V(), {}) && lists == map[] && states == map[] && calls == [] && passes == [] && this.care == care
    {
      this.care := care;
      lists, states, nextTag, nextId := map[], map[], 0, 0;
      hist, calls, passes := map[], [], [];
    }

    /** `jQuery.Callbacks(options)` */
    method NewCallbacks(options: Options) returns (l: nat)
      requires Inv(V(), {})
      modifies this
      ensures l == old(nextId) && V() == NewListView(old(V()), options) && Inv(V(), {}) && Evolves(old(V()), V())
    {
      NewListStep(V(), options);
      l := nextId;
      lists, hist, nextId := lists[l := NewList(options)], hist[l := NewHistory()], nextId + 1;
    }

    /** `jQuery.Deferred()` */
    method NewDeferred() returns (d: nat)
      requires Inv(V(), {})
      modifies this
      ensures d == old(nextId) && d in states && states[d] == Pending
      ensures V() == NewDeferredView(old(V())) && Inv(V(), {}) && Evolves(old(V()), V())
    {
      NewDeferredStep(V());
      d := AddDeferred();
    }

    method AddDeferred() returns (d: nat)
      modifies this
      ensures d == old(nextId) && V() == NewDeferredView(old(V()))
    {
      d := nextId;
      var t := nextTag;
      hist := NewDeferredView(V()).hist;
      lists := lists[d := NewSettleList(d, true, t)]
                    [d + 1 := NewSettleList(d, false, t + 3)][d + 2 := NewList(ProgressOptions)];
      states, nextId, nextTag := states[d := Pending], d + 3, t + 6;
    }

    /** `disable` */
    method Disable(l: nat)
      requires l in lists && l in hist
      modifies this
      ensures V() == PutList(old(V()), l, Disabled(old(lists[l])), Broken(old(lists[l]), old(hist[l])))
    {
      hist := hist[l := Broken(lists[l], hist[l])];
      lists := lists[l := lists[l].(list := None, stack := None, memory := None)];
    }

    /** `lock` */
    method Lock(l: nat)
      requires l in lists && l in hist
      modifies this
      ensures V() == PutList(old(V()), l, Locked(old(lists[l])),
        if old(lists[l]).memory.None? then Broken(old(lists[l]), old(hist[l])) else old(hist[l]))
    {
      lists := lists[l := lists[l].(stack := None)];
      if lists[l].memory.None? {
        Disable(l);
      }
    }

    /** `empty` */
    method Empty(l: nat)
      requires Inv(V(), {}) && FreeStanding(V(), l) && (lists[l].firing ==> !Safe(V(), l))
      modifies this
      ensures V() == PutList(old(V()), l, old(lists[l]).(list := Some([]), firingLength := 0),
                             Broken(old(lists[l]), old(hist[l])))
      ensures Inv(V(), {}) && Evolves(old(V()), V())
    {
      EmptyStep(V(), l);
      hist := hist[l := Broken(lists[l], hist[l])];
      lists := lists[l := lists[l].(list := Some([]), firingLength := 0)];
    }

    /** `remove` */
    method Remove(l: nat, fns: seq<Fn>)
      requires Inv(V(), {}) && FreeStanding(V(), l) && forall fn <- fns :: !IsKept(care, l, fn)
      modifies this
      ensures Inv(V(), {}) && Evolves(old(V()), V())
      ensures calls == old(calls) && l in lists
      ensures lists[l].list == if old(lists[l]).list.None? then None
        else Some(WithoutAll(old(lists[l]).list.value, fns))
    {
      EvolvesNothing(V());
      if lists[l].list.Some? {
        for i := 0 to |fns|
          invariant Inv(V(), {}) && FreeStanding(V(), l) && Evolves(old(V()), V()) && calls == old(calls)
          invariant lists[l].list.Some?
          invariant WithoutAll(lists[l].list.value, fns[i..]) == WithoutAll(old(lists[l]).list.value, fns)
        {
          ghost var v := V();
          RemoveOne(l, fns[i]);
          EvolvesTransitive(old(V()), v, V());
          assert fns[i..][1..] == fns[i + 1..];
        }
      }
    }

    /** Every occurrence of one callback goes, and the firing indices are kept in step. */
    method RemoveOne(l: nat, fn: Fn)
      requires Inv(V(), {}) && FreeStanding(V(), l) && lists[l].list.Some? && !IsKept(care, l, fn)
      modifies this
      ensures Inv(V(), {}) && FreeStanding(V(), l) && calls == old(calls) && Evolves(old(V()), V())
      ensures lists[l].list == Some(Without(old(lists[l]).list.value, fn))
    {
      EvolvesNothing(V());
      var index := IndexOf(lists[l].list.value, fn, 0);
      while index > -1
        invariant Inv(V(), {}) && FreeStanding(V(), l) && Evolves(old(V()), V()) && calls == old(calls)
        invariant lists[l].list.Some?
        invariant -1 <= index < |lists[l].list.value| && (index > -1 ==> lists[l].list.value[index].fn == fn)
        invariant forall k | 0 <= k < |lists[l].list.value| && (index == -1 || k < index) ::
          lists[l].list.value[k].fn != fn
        invariant Without(lists[l].list.value, fn) == Without(old(lists[l]).list.value, fn)
        decreases |lists[l].list.value|
      {
        index := RemoveNext(l, fn, index, old(V()));
      }
      WithoutNothing(lists[l].list.value, fn);
    }

    method RemoveNext(l: nat, fn: Fn, index: nat, ghost start: View) returns (next: int)
      requires Inv(V(), {}) && FreeStanding(V(), l) && lists[l].list.Some? && Evolves(start, V())
      requires start.lists.Keys == start.hist.Keys
      requires index < |lists[l].list.value| && lists[l].list.value[index].fn == fn && !IsKept(care, l, fn)
      requires forall k | 0 <= k < index :: lists[l].list.value[k].fn != fn
      modifies this
      ensures Inv(V(), {}) && FreeStanding(V(), l) && Evolves(start, V()) && calls == old(calls) && lists[l].list.Some?
      ensures V() == PutList(old(V()), l, RemoveAt(old(lists[l]), index), DropAt(old(lists[l]), old(hist[l]), index))
      ensures -1 <= next < |lists[l].list.value| && (next > -1 ==> lists[l].list.value[next].fn == fn)
      ensures forall k | 0 <= k < |lists[l].list.value| && (next == -1 || k < next) :: lists[l].list.value[k].fn != fn
      ensures Without(lists[l].list.value, fn) == Without(old(lists[l]).list.value, fn)
      ensures |lists[l].list.value| < |old(lists[l]).list.value|
    {
      ghost var s := lists[l].list.value;
      RemoveStep(V(), l, index);
      WithoutRemoved(s, fn, index);
      hist := hist[l := DropAt(lists[l], hist[l], index)];
      lists := lists[l := RemoveAt(lists[l], index)];
      EvolvesTransitive(start, old(V()), V());
      assert lists[l].list.value == Removed(s, index);
      next := IndexOf(lists[l].list.value, fn, index);
      assert forall k | 0 <= k < index :: lists[l].list.value[k] == s[k];
    }

    /** The appending part of `add`: a firing list takes the new callbacks into its pass. */
    method PushAll(l: nat, fns: seq<Fn>)
      requires Inv(V(), {}) && l in lists && lists[l].list.Some? && forall fn <- fns :: fn.User?
      modifies this
      ensures l in lists && l in hist && CanAdd(V(), l) && Evolves(old(V()), V()) && OnlyPushed(old(V()), V(), l)
      ensures lists[l].list.value == WithAdded(old(lists[l]).list.value, fns, lists[l].options.unique, old(nextTag))
    {
      PushStart(V(), l);
      EvolvesNothing(V());
      ghost var unique := lists[l].options.unique;
      ghost var goal := WithAdded(lists[l].list.value, fns, unique, nextTag);
      assert OnlyPushed(V(), V(), l);
      for i := 0 to |fns|
        invariant l in lists && l in hist && CanAdd(V(), l) && Evolves(old(V()), V()) && OnlyPushed(old(V()), V(), l)
        invariant WithAdded(lists[l].list.value, fns[i..], unique, nextTag) == goal
      {
        WithAddedNext(lists[l].list.value, fns, i, unique, nextTag);
        PushNew(l, fns[i], old(V()));
      }
    }

    /** Under `unique`, a callback that is there already is passed over. */
    method PushNew(l: nat, fn: Fn, ghost start: View)
      requires l in lists && l in hist && CanAdd(V(), l) && lists[l].list.Some? && fn.User?
      requires Evolves(start, V()) && start.lists.Keys == start.hist.Keys && OnlyPushed(start, V(), l)
      modifies this
      ensures l in lists && l in hist && CanAdd(V(), l) && Evolves(start, V()) && OnlyPushed(start, V(), l)
      ensures var s := old(lists[l]).list.value; var there := lists[l].options.unique && Has(s, fn);
        lists[l].list.value == (if there then s else s + [Entry(fn, old(nextTag))])
          && nextTag == old(nextTag) + if there then 0 else 1
    {
      if !lists[l].options.unique || !Has(lists[l].list.value, fn) {
        PushOne(l, fn, start);
      }
    }

    method PushOne(l: nat, fn: Fn, ghost start: View)
      requires l in lists && l in hist && CanAdd(V(), l) && lists[l].list.Some? && fn.User?
      requires Evolves(start, V()) && start.lists.Keys == start.hist.Keys && OnlyPushed(start, V(), l)
      modifies this
      ensures V() == PushedView(old(V()), l, fn) && CanAdd(V(), l) && Evolves(start, V()) && OnlyPushed(start, V(), l)
    {
      PushStep(V(), l, fn);
      OnlyPushedStep(start, V(), l, fn);
      SetPushed(l, fn);
      EvolvesTransitive(start, old(V()), V());
    }

    method SetPushed(l: nat, fn: Fn)
      requires l in lists && l in hist && lists[l].list.Some?
      modifies this`lists, this`hist, this`nextTag
      ensures V() == PushedView(old(V()), l, fn)
    {
      hist := hist[l := PushedHistory(lists[l], hist[l], Entry(fn, nextTag))];
      lists, nextTag := lists[l := Pushed(lists[l], Entry(fn, nextTag))], nextTag + 1;
    }

    /** `add`, which is also `done`, `fail` and `progress` of a Deferred */
    method Add(l: nat, fns: seq<Fn>, script: seq<Action>) returns (rest: seq<Action>)
      requires Inv(V(), {}) && l in lists && forall fn <- fns :: fn.User?
      requires Spares(script, care)
      modifies this
      ensures Inv(V(), {}) && Evolves(old(V()), V()) && |rest| <= |script|
      ensures l in lists && l in hist && l in old(hist)
      ensures old(lists[l]).list.None? ==> V() == old(V())
      ensures old(lists[l]).list.Some? && (old(lists[l]).firing || old(lists[l]).memory.None?) ==>
        && rest == script && OnlyPushed(old(V()), V(), l)
        && lists[l].list == Some(WithAdded(old(lists[l]).list.value, fns, lists[l].options.unique, old(nextTag)))
      ensures old(lists[l]).list.Some? && !old(lists[l]).options.unique ==> NowNamed(hist[l], old(nextTag), fns)
      ensures old(lists[l]).list.Some? && !old(lists[l]).firing && old(lists[l]).memory.Some? ==>
        Delivered(V(), l, old(hist[l]).pass + 1, old(lists[l]).memory.value,
          TagsFrom(WithAdded(old(lists[l]).list.value, fns, old(lists[l]).options.unique, old(nextTag)),
                   |old(lists[l]).list.value|))
      ensures Spares(rest, care)
      decreases |script|, 4
    {
      ListIn(V(), {}, l);
      EvolvesNothing(V());
      rest := script;
      if lists[l].list.Some? {
        var start := |lists[l].list.value|;
        PushAll(l, fns);
        if !lists[l].options.unique { PushedNames(V(), l, old(lists[l]).list.value, fns, old(nextTag)); }
        if lists[l].firing || lists[l].memory.None? {
          PushEnd(V(), l);
        } else {
          ghost var h := hist[l];
          rest := Replayed(l, start, script, old(V()));
          if !old(lists[l]).options.unique { NamedStays(h, hist[l], old(nextTag), fns); }
        }
      }
    }

    /** New callbacks of a list that remembers its last fire call are run right away. */
    method Replayed(l: nat, start: nat, script: seq<Action>, ghost before: View) returns (rest: seq<Action>)
      requires Inv(before, {}) && l in before.lists && l in lists && l in hist && CanAdd(V(), l)
      requires states == before.states
      requires Spares(script, care)
      requires Evolves(before, V())
      requires lists[l].list.Some? && !lists[l].firing && lists[l].memory.Some?
      requires before.lists[l].list.Some? && !before.lists[l].firing && before.lists[l].memory.Some?
      requires start == |before.lists[l].list.value| <= |lists[l].list.value|
      modifies this
      ensures Inv(V(), {}) && Evolves(before, V()) && |rest| <= |script| && l in hist
      ensures Delivered(V(), l, old(hist[l]).pass + 1, old(lists[l]).memory.value,
          TagsFrom(old(lists[l]).list.value, start))
      ensures NamesGrew(old(hist[l]), hist[l])
      ensures Spares(rest, care)
      decreases |script|, 3, 2
    {
      PushReplay(before, V(), l);
      lists := lists[l := lists[l].(firingStart := start)];
      EvolvesTransitive(before, old(V()), V());
      ghost var v := V();
      assert v == PutList(old(V()), l, old(lists[l]).(firingStart := start), old(hist[l]));
      rest := Fire(l, lists[l].memory.value, Replay, script);
      assert ListEvolves(v.lists[l], v.hist[l], lists[l], hist[l]);
      EvolvesTransitive(before, v, V());
    }

    /** `fireWith`, which is also `resolveWith`, `rejectWith` and `notifyWith` of a Deferred */
    method FireWith(l: nat, data: Data, script: seq<Action>) returns (rest: seq<Action>)
      requires Inv(V(), {}) && l in lists
      requires Spares(script, care)
      modifies this
      ensures Inv(V(), {}) && Evolves(old(V()), V()) && |rest| <= |script|
      ensures l in old(hist) && l in lists && l in hist
      ensures old(lists[l]).list.None? || (old(lists[l]).fired && old(lists[l]).stack.None?) ==>
        V() == old(V()) && rest == script
      ensures old(lists[l]).list.Some? && (!old(lists[l]).fired || old(lists[l]).stack.Some?) ==>
        if old(lists[l]).firing then
          rest == script && old(lists[l]).stack.Some? && V() == QueuedView(old(V()), l, data)
        else
          && old(hist[l]).delivered + [data] <= hist[l].delivered
          && old(hist[l]).requested + [data] <= hist[l].requested
          && Delivered(V(), l, old(hist[l]).pass + 1, data, TagsFrom(old(lists[l]).list.value, 0))
      ensures Spares(rest, care)
      decreases |script|, 4
    {
      ListIn(V(), {}, l);
      EvolvesNothing(V());
      rest := script;
      if lists[l].list.Some? && (!lists[l].fired || lists[l].stack.Some?) {
        if lists[l].firing {
          QueueStep(V(), l, data);
          hist := hist[l := hist[l].(requested := hist[l].requested + [data])];
          lists := lists[l := lists[l].(stack := Some(lists[l].stack.value + [data]))];
        } else {
          DirectFire(V(), l, data);
          rest := Fire(l, data, Direct, script);
          ListIn(V(), {}, l);
        }
      }
    }

    /** The private `fire`: one pass over the list, then whatever has been queued meanwhile. */
    method Fire(l: nat, data: Data, source: Source, script: seq<Action>) returns (rest: seq<Action>)
      requires Inv(V(), {l}) && l in lists && l in hist && CanFire(V(), l, data, source)
      requires SettleCanFire(V(), l, source)
      requires Spares(script, care)
      modifies this
      ensures Inv(V(), {}) && Evolves(old(V()), V()) && |rest| <= |script| && l in hist
      ensures old(hist[l]).delivered + (if source == Replay then [] else [data]) <= hist[l].delivered
      ensures Delivered(V(), l, old(hist[l]).pass + 1, data,
          TagsFrom(old(lists[l]).list.value, old(lists[l]).firingStart))
      ensures Spares(rest, care)
      decreases |script|, 3, if source == Queued then 2 * |lists[l].stack.value| else 1
    {
      rest := RunPass(l, data, source, script);
      ghost var passed := V();
      rest := FireNext(l, rest);
      EvolvesTransitive(old(V()), passed, V());
      StillDelivered(passed, V(), l, old(hist[l]).pass + 1, data,
                     TagsFrom(old(lists[l]).list.value, old(lists[l]).firingStart));
    }

    /** One pass, from the setting of `firing` to its reset. */
    method RunPass(l: nat, data: Data, source: Source, script: seq<Action>) returns (rest: seq<Action>)
      requires Inv(V(), {l}) && l in lists && l in hist && CanFire(V(), l, data, source)
      requires SettleCanFire(V(), l, source)
      requires Spares(script, care)
      modifies this
      ensures Inv(V(), {l}) && l in lists && l in hist && !lists[l].firing && Evolves(old(V()), V())
      ensures |rest| <= |script|
      ensures hist[l].delivered == if source == Replay then old(hist[l]).delivered else old(hist[l]).delivered + [data]
      ensures Delivered(V(), l, old(hist[l]).pass + 1, data,
          TagsFrom(old(lists[l]).list.value, old(lists[l]).firingStart))
      ensures CanGoOn(V(), l)
      ensures |rest| == |script| ==> lists[l].stack == Dequeued(old(lists[l]).stack, source)
      ensures Spares(rest, care)
      decreases |script|, 2, 1
    {
      Begin(l, data, source);
      ghost var h := hist[l];
      var stopped: bool;
      ghost var results;
      stopped, rest, results := Loop(l, data, script, old(V()));
      ghost var k := hist[l];
      Finish(l, stopped, old(V()));
      DeliveredLess(V(), l, h.pass, data, h.entered, k.entered);
    }

    /** What has been queued meanwhile is fired; if nothing has, the list is idle. */
    method FireNext(l: nat, script: seq<Action>) returns (rest: seq<Action>)
      requires Inv(V(), {l}) && l in lists && l in hist && !lists[l].firing
      requires Spares(script, care)
      requires CanGoOn(V(), l)
      modifies this
      ensures Inv(V(), {}) && Evolves(old(V()), V()) && |rest| <= |script| && l in hist
      ensures if old(lists[l]).list.Some? && old(lists[l]).stack.Some? && old(lists[l]).stack.value != [] then
          && old(hist[l]).delivered + [old(lists[l]).stack.value[0]] <= hist[l].delivered
          && Delivered(V(), l, old(hist[l]).pass + 1, old(lists[l]).stack.value[0],
              TagsFrom(old(lists[l]).list.value, 0))
        else V() == PutList(old(V()), l, Retired(old(lists[l])), old(hist[l])) && rest == script
      ensures Spares(rest, care)
      decreases |script|, 3, if lists[l].stack.Some? && lists[l].stack.value != [] then 2 * |lists[l].stack.value| + 1
        else 0
    {
      rest := script;
      ListIn(V(), {l}, l);
      if lists[l].list.Some? && lists[l].stack.Some? && lists[l].stack.value != [] {
        rest := Fire(l, lists[l].stack.value[0], Queued, rest);
      } else {
        Retire(l);
      }
    }

    /** The pass starts at `firingStart`; a queued call leaves the queue. */
    method Begin(l: nat, data: Data, source: Source)
      requires Inv(V(), {l}) && l in lists && l in hist && CanFire(V(), l, data, source)
      requires SettleCanFire(V(), l, source)
      modifies this
      ensures V() == Begun(old(V()), l, data, source) && Looping(V(), l, data) && EvolvesBut(old(V()), V(), l)
    {
      BegunLoops(V(), l, data, source);
      SetBegun(l, data, source);
    }

    method SetBegun(l: nat, data: Data, source: Source)
      requires l in lists && l in hist && CanFire(V(), l, data, source)
      modifies this
      ensures V() == Begun(old(V()), l, data, source)
    {
      hist := hist[l := BegunHistory(lists[l], hist[l], data, source, nextTag)];
      if source == Queued {
        lists := lists[l := lists[l].(stack := Some(lists[l].stack.value[1..]))];
      }
      lists := lists[l := lists[l].(memory := if lists[l].options.memory then Some(data) else None, fired := true)];
      lists := lists[l := lists[l].(firingIndex := lists[l].firingStart)];
      lists := lists[l := lists[l].(firingStart := 0, firingLength := |lists[l].list.value|, firing := true)];
    }

    /** `firingIndex` walks up to `firingLength`, both of which the callbacks may change. A list that
        stops on false does so at the first callback that returns it, and no other list stops. */
    method Loop(l: nat, data: Data, script: seq<Action>, ghost start: View)
      returns (stopped: bool, rest: seq<Action>, ghost results: seq<bool>)
      requires Looping(V(), l, data) && l in hist
      requires Spares(script, care)
      requires EvolvesBut(start, V(), l) && l in start.lists && start.lists.Keys == start.hist.Keys
      modifies this
      ensures l in lists && l in hist && AtEnd(V(), l, stopped) && EvolvesBut(start, V(), l) && |rest| <= |script|
      ensures |rest| == |script| ==> lists[l].stack == old(lists[l]).stack
      ensures SamePass(old(hist[l]), hist[l])
      ensures Spares(rest, care)
      ensures stopped <==> start.lists[l].options.stopOnFalse && results != [] && results[|results| - 1]
      ensures start.lists[l].options.stopOnFalse ==> forall k | 0 <= k < |results| - 1 :: !results[k]
      decreases |script|, 2, 0
    {
      stopped, rest, results := false, script, [];
      while lists[l].list.Some? && lists[l].firingIndex < lists[l].firingLength
        invariant Looping(V(), l, data) && l in hist && EvolvesBut(start, V(), l) && |rest| <= |script| && !stopped
        invariant |rest| == |script| ==> lists[l].stack == old(lists[l]).stack
        invariant SamePass(old(hist[l]), hist[l]) && Spares(rest, care)
        invariant start.lists[l].options.stopOnFalse ==> forall k | 0 <= k < |results| :: !results[k]
        decreases |rest|, if lists[l].list.Some? then |lists[l].list.value| - lists[l].firingIndex else 0
      {
        var isFalse;
        isFalse, stopped, rest := TurnAndAdvance(l, data, rest, start);
        results := results + [isFalse];
        if stopped {
          break;
        }
      }
    }

    /** One callback is called, and the index moves on unless the list stops. */
    method TurnAndAdvance(l: nat, data: Data, script: seq<Action>, ghost start: View)
      returns (isFalse: bool, stopped: bool, rest: seq<Action>)
      requires Looping(V(), l, data) && l in hist && lists[l].list.Some? && lists[l].firingIndex < |lists[l].list.value|
      requires Spares(script, care)
      requires EvolvesBut(start, V(), l) && l in start.lists && start.lists.Keys == start.hist.Keys
      modifies this
      ensures l in lists && l in hist && EvolvesBut(start, V(), l) && |rest| <= |script| && Spares(rest, care)
      ensures SamePass(old(hist[l]), hist[l])
      ensures stopped <==> isFalse && start.lists[l].options.stopOnFalse
      ensures if stopped then AtEnd(V(), l, true) else Looping(V(), l, data)
      ensures |rest| == |script| ==> lists[l].stack == old(lists[l]).stack
      ensures |rest| == |script| && !stopped ==>
        lists[l].list == old(lists[l]).list && lists[l].firingIndex == old(lists[l]).firingIndex + 1
      decreases |script|, 1, 1
    {
      isFalse, rest := Turn(l, data, script, start);
      stopped := isFalse && lists[l].options.stopOnFalse;
      if !stopped {
        Advance(l, data, start);
      }
    }

    method Advance(l: nat, data: Data, ghost start: View)
      requires l in lists && l in hist && Inv(V(), {l}) && Looping(Advanced(V(), l), l, data)
      requires EvolvesBut(start, V(), l) && l in start.lists && start.lists.Keys == start.hist.Keys
      modifies this
      ensures V() == Advanced(old(V()), l) && EvolvesBut(start, V(), l)
    {
      AdvancedEvolves(V(), l);
      EvolvesButTransitive(start, V(), Advanced(V(), l), l);
      lists := lists[l := lists[l].(firingIndex := lists[l].firingIndex + 1)];
    }

    /** One callback is called. */
    method Turn(l: nat, data: Data, script: seq<Action>, ghost start: View) returns (isFalse: bool, rest: seq<Action>)
      requires Looping(V(), l, data) && l in hist && lists[l].list.Some? && lists[l].firingIndex < |lists[l].list.value|
      requires Spares(script, care)
      requires EvolvesBut(start, V(), l) && l in start.lists && start.lists.Keys == start.hist.Keys
      modifies this
      ensures l in lists && l in hist && Inv(V(), {l}) && lists[l].firing && Looping(Advanced(V(), l), l, data)
      ensures EvolvesBut(start, V(), l) && |rest| <= |script| && (|rest| < |script| || lists[l] == old(lists[l]))
      ensures SamePass(old(hist[l]), hist[l])
      ensures var c, h := old(lists[l]), old(hist[l]);
        old(calls) + [Call(l, h.pass, c.list.value[c.firingIndex].tag, data)] <= calls
      ensures Spares(rest, care)
      ensures var fn := old(lists[l]).list.value[old(lists[l]).firingIndex].fn;
        && (!fn.User? || script == [] ==> !isFalse)
        && (fn.User? && script != [] && script[0].Return? ==> isFalse == script[0].isFalse)
      decreases |script|, 1, 0
    {
      var fn := lists[l].list.value[lists[l].firingIndex].fn;
      isFalse, rest := false, script;
      if fn.User? {
        LogCall(l, data, start);
        isFalse, rest := CallUser(l, data, script, start);
      } else {
        CallInternal(l, data, fn, start);
      }
    }

    ghost method LogCall(l: nat, data: Data, start: View)
      requires Looping(V(), l, data) && l in hist && lists[l].list.Some? && lists[l].firingIndex < |lists[l].list.value|
      requires EvolvesBut(start, V(), l) && l in start.lists && start.lists.Keys == start.hist.Keys
      modifies this`hist, this`calls
      ensures V() == Called(old(V()), l) && EvolvesBut(start, V(), l) && Inv(V(), {l})
      ensures SamePass(old(hist[l]), hist[l])
      ensures lists[l].list.value[lists[l].firingIndex].fn.User? ==> Inv(V(), {})
    {
      CalledFrom(start, V(), l, data);
      var tag := lists[l].list.value[lists[l].firingIndex].tag;
      calls := calls + [Call(l, hist[l].pass, tag, hist[l].passData)];
      hist := hist[l := Running(hist[l], tag)];
    }

    method CallUser(l: nat, data: Data, script: seq<Action>, ghost start: View)
      returns (isFalse: bool, rest: seq<Action>)
      requires Inv(V(), {}) && l in lists && l in hist && lists[l].firing && hist[l].passData == data
      requires Spares(script, care)
      requires EvolvesBut(start, V(), l) && l in start.lists && start.lists.Keys == start.hist.Keys
      modifies this
      ensures l in lists && l in hist && Inv(V(), {l}) && lists[l].firing && Looping(Advanced(V(), l), l, data)
      ensures EvolvesBut(start, V(), l) && |rest| <= |script| && (|rest| < |script| || lists[l] == old(lists[l]))
      ensures SamePass(old(hist[l]), hist[l]) && old(calls) <= calls
      ensures Spares(rest, care) && (script == [] ==> !isFalse)
      ensures script != [] && script[0].Return? ==> isFalse == script[0].isFalse && rest == script[1..]
      decreases |script|, 0, 1
    {
      ghost var v := V();
      isFalse, rest := RunForeign(script);
      assert ListEvolves(v.lists[l], v.hist[l], lists[l], hist[l]);
      AdvancedLoops(V(), l, data);
      Loosen(V(), l);
      EvolvesButTransitive(start, v, V(), l);
    }

    /** The functions that Deferred has put at the head of its lists. */
    method CallInternal(l: nat, data: Data, fn: Fn, ghost start: View)
      requires Looping(V(), l, data) && l in hist && lists[l].list.Some? && lists[l].firingIndex < |lists[l].list.value|
      requires fn == lists[l].list.value[lists[l].firingIndex].fn && !fn.User?
      requires EvolvesBut(start, V(), l) && l in start.lists && start.lists.Keys == start.hist.Keys
      modifies this
      ensures l in lists && l in hist && Inv(V(), {l}) && Looping(Advanced(V(), l), l, data)
      ensures EvolvesBut(start, V(), l) && lists[l] == old(lists[l]) && SamePass(old(hist[l]), hist[l])
      ensures var c, h := old(lists[l]), old(hist[l]);
        calls == old(calls) + [Call(l, h.pass, c.list.value[c.firingIndex].tag, data)]
    {
      ghost var d, resolve := InternalTurnOf(start, V(), l, data);
      DoInternal(l, fn, d, resolve);
    }

    method DoInternal(l: nat, fn: Fn, ghost d: nat, ghost resolve: bool)
      requires l in lists && l in hist && lists[l].list.Some? && 0 <= lists[l].firingIndex < |lists[l].list.value|
      requires HasLists(V(), d) && d in states && l == SettleList(d, resolve) && HasLists(Called(V(), l), d)
      requires lists[l].firingIndex < 3
      requires fn == [SetState(d, resolve), DisableList(SettleList(d, !resolve)), LockList(d + 2)][lists[l].firingIndex]
      modifies this
      ensures V() == AfterInternal(Called(old(V()), l), d, resolve, old(lists[l]).firingIndex)
    {
      ghost var tag := lists[l].list.value[lists[l].firingIndex].tag;
      calls := calls + [Call(l, hist[l].pass, tag, hist[l].passData)];
      hist := hist[l := Running(hist[l], tag)];
      assert V() == Called(old(V()), l);
      match fn
      case SetState(e, b) => states := states[e := SettledState(b)];
      case DisableList(x) => Disable(x);
      case LockList(x) => Lock(x);
    }

    /** The pass is over, and has run or dropped all that entered it unless it was broken off. */
    method Finish(l: nat, stopped: bool, ghost start: View)
      requires l in lists && l in hist && AtEnd(V(), l, stopped)
      requires EvolvesBut(start, V(), l) && l in start.lists && start.lists.Keys == start.hist.Keys
      requires !start.lists[l].firing
      modifies this
      ensures V() == Ended(old(V()), l, stopped) && Inv(V(), {l}) && Evolves(start, V())
      ensures Delivered(V(), l, old(hist[l]).pass, old(hist[l]).passData, old(hist[l]).entered)
      ensures CanGoOn(V(), l) && (stopped ==> lists[l].memory.None?)
    {
      EndedInv(V(), l, stopped);
      EndedQueue(V(), l, stopped);
      EndedEvolved(start, V(), l, stopped);
      if lists[l].stack.Some? ==> lists[l].stack.value == [] { EndedIdle(V(), l, stopped); }
      ListIn(V(), {l}, l);
      SetEnded(l, stopped);
    }

    method SetEnded(l: nat, stopped: bool)
      requires l in lists && l in hist && (Safe(V(), l) ==> !hist[l].disturbed && !stopped)
      modifies this
      ensures V() == Ended(old(V()), l, stopped)
      ensures Delivered(V(), l, old(hist[l]).pass, old(hist[l]).passData, old(hist[l]).entered)
    {
      ghost var h := hist[l];
      if !h.disturbed && !stopped {
        passes := passes + [Pass(l, h.pass, h.passData, h.entered, h.ran, h.dropped)];
        assert Covers(passes[|passes| - 1], l, h.pass, h.passData, h.entered);
      } else {
        hist := hist[l := h.(broken := h.broken + {h.pass})];
      }
      if stopped { lists := lists[l := lists[l].(memory := None)]; }
      lists := lists[l := lists[l].(firing := false)];
    }

    method Retire(l: nat)
      requires l in lists && l in hist && Inv(V(), {l}) && !lists[l].firing
      requires lists[l].list.None? || lists[l].stack.None? || lists[l].stack.value == []
      requires Inv(PutList(V(), l, Retired(lists[l]), hist[l]), {})
      modifies this
      ensures V() == PutList(old(V()), l, Retired(old(lists[l])), old(hist[l])) && Evolves(old(V()), V())
    {
      EvolvesPut(V(), l, Retired(lists[l]), hist[l], nextTag);
      if lists[l].list.Some? && lists[l].stack.None? {
        if lists[l].memory.Some? {
          lists := lists[l := lists[l].(list := Some([]))];
        } else {
          Disable(l);
        }
      }
    }

    /** A callback runs until it returns, or has nothing more to do. */
    method RunForeign(script: seq<Action>) returns (isFalse: bool, rest: seq<Action>)
      requires Inv(V(), {})
      requires Spares(script, care)
      modifies this
      ensures Inv(V(), {}) && Evolves(old(V()), V()) && |rest| <= |script| && (|rest| < |script| || V() == old(V()))
      ensures Spares(rest, care) && (script != [] ==> |rest| < |script| && FirstDone(script[0], old(V()), V()))
      ensures script == [] ==> !isFalse
      ensures script != [] && script[0].Return? ==>
        isFalse == script[0].isFalse && rest == script[1..] && V() == old(V())
      decreases |script|, 0, 0
    {
      isFalse, rest := false, script;
      EvolvesNothing(V());
      while rest != []
        invariant Inv(V(), {}) && Evolves(old(V()), V()) && |rest| <= |script|
        invariant Spares(rest, care) && !isFalse
        invariant if |rest| == |script| then V() == old(V()) && rest == script
          else !script[0].Return? && FirstDone(script[0], old(V()), V())
        decreases |rest|
      {
        var action := rest[0];
        assert Gentle(action, care) && Spares(rest[1..], care);
        rest := rest[1..];
        if action.Return? {
          isFalse := action.isFalse;
          FirstIsDone(action, V(), V());
          return;
        }
        ghost var v := V();
        rest := Perform(action, rest);
        EvolvesTransitive(old(V()), v, V());
        if v == old(V()) { FirstIsDone(action, v, V()); }
        if |rest| + 1 < |script| && FirstDone(script[0], old(V()), v) { FirstStaysDone(script[0], old(V()), v, V()); }
      }
    }

    /** One call of foreign code. The lists of a Deferred can only be reached through its own functions. */
    method Perform(action: Action, script: seq<Action>) returns (rest: seq<Action>)
      requires Inv(V(), {}) && Gentle(action, care)
      requires Spares(script, care)
      modifies this
      ensures Inv(V(), {}) && Evolves(old(V()), V()) && |rest| <= |script|
      ensures Spares(rest, care) && Did(action, old(V()), V())
      decreases |script|, 7
    {
      rest := script;
      EvolvesNothing(V());
      if OnDeferred(action) {
        if action.d in states { rest := PerformOnDeferred(action, script); }
      } else if OnList(action) {
        if action.l in lists && !Owned(states, action.l) { rest := PerformOnList(action, script); }
      } else if action.NewCallbacks? {
        var _ := NewCallbacks(action.options);
      } else if action.NewDeferred? {
        var _ := NewDeferred();
      }
    }

    /** A call on a list of its own. */
    method PerformOnList(action: Action, script: seq<Action>) returns (rest: seq<Action>)
      requires Inv(V(), {}) && Gentle(action, care) && Spares(script, care)
      requires OnList(action) && action.l in lists && !Owned(states, action.l)
      modifies this
      ensures Inv(V(), {}) && Evolves(old(V()), V()) && |rest| <= |script| && Spares(rest, care)
      ensures action.l in old(hist) && DidOnList(action, old(V()), V(), action.l)
      decreases |script|, 6
    {
      rest := script;
      ListIn(V(), {}, action.l);
      if action.AddTo? {
        rest := AddUsers(action.l, action.fns, script);
      } else if action.RemoveFrom? {
        Remove(action.l, Users(action.fns));
      } else if action.FireList? {
        rest := FireWith(action.l, action.data, script);
      } else {
        CloseOff(action);
      }
    }

    /** `empty`, `disable` and `lock` */
    method CloseOff(action: Action)
      requires Inv(V(), {}) && Gentle(action, care) && (action.EmptyList? || action.Disable? || action.Lock?)
      requires FreeStanding(V(), action.l)
      modifies this
      ensures Inv(V(), {}) && Evolves(old(V()), V()) && DidOnList(action, old(V()), V(), action.l)
    {
      match action
      case EmptyList(l) => Empty(l);
      case Disable(l) => DisableStep(V(), l); Disable(l);
      case Lock(l) => LockStep(V(), l); Lock(l);
    }

    method AddUsers(l: nat, fns: seq<nat>, script: seq<Action>) returns (rest: seq<Action>)
      requires Inv(V(), {}) && Spares(script, care) && l in lists
      modifies this
      ensures Inv(V(), {}) && Evolves(old(V()), V()) && |rest| <= |script| && Spares(rest, care)
      ensures l in old(hist) && DidOnList(AddTo(l, fns), old(V()), V(), l)
      decreases |script|, 5
    {
      rest := Add(l, Users(fns), script);
      if old(lists)[l].list.Some? && !old(lists)[l].options.unique { JoinedAll(old(V()), V(), l, fns); }
    }

    /** `done` */
    method Done(d: nat, fns: seq<nat>, script: seq<Action>) returns (rest: seq<Action>)
      requires Inv(V(), {}) && d in states && Spares(script, care)
      modifies this
      ensures Inv(V(), {}) && Evolves(old(V()), V()) && |rest| <= |script| && Spares(rest, care)
      ensures if old(states)[d] == Rejected then V() == old(V()) else Joined(old(V()), V(), d, fns)
      decreases |script|, 5
    {
      DeferredIn(V(), {}, d);
      rest := Add(d, Users(fns), script);
      if old(states)[d] != Rejected { JoinedAll(old(V()), V(), d, fns); }
    }

    /** `fail` */
    method Fail(d: nat, fns: seq<nat>, script: seq<Action>) returns (rest: seq<Action>)
      requires Inv(V(), {}) && d in states && Spares(script, care)
      modifies this
      ensures Inv(V(), {}) && Evolves(old(V()), V()) && |rest| <= |script| && Spares(rest, care)
      ensures if old(states)[d] == Resolved then V() == old(V()) else Joined(old(V()), V(), d + 1, fns)
      decreases |script|, 5
    {
      DeferredIn(V(), {}, d);
      rest := Add(d + 1, Users(fns), script);
      if old(states)[d] != Resolved { JoinedAll(old(V()), V(), d + 1, fns); }
    }

    /** `progress` */
    method Progress(d: nat, fns: seq<nat>, script: seq<Action>) returns (rest: seq<Action>)
      requires Inv(V(), {}) && d in states && Spares(script, care)
      modifies this
      ensures Inv(V(), {}) && Evolves(old(V()), V()) && |rest| <= |script| && Spares(rest, care)
      ensures d + 2 in old(lists)
      ensures if old(lists)[d + 2].list.None? then old(states)[d] != Pending && V() == old(V())
        else Joined(old(V()), V(), d + 2, fns)
      decreases |script|, 5
    {
      DeferredIn(V(), {}, d);
      rest := Add(d + 2, Users(fns), script);
      if old(lists)[d + 2].list.Some? { JoinedAll(old(V()), V(), d + 2, fns); }
    }

    /** `resolveWith` and `rejectWith` */
    method Settle(d: nat, resolve: bool, data: Data, script: seq<Action>) returns (rest: seq<Action>)
      requires Inv(V(), {}) && d in states && Spares(script, care)
      modifies this
      ensures Inv(V(), {}) && Evolves(old(V()), V()) && |rest| <= |script| && Spares(rest, care)
      ensures old(states)[d] != Pending ==> V() == old(V())
      ensures d in states && d in hist && d + 1 in hist
      ensures old(states)[d] == Pending && resolve ==> states[d] == Resolved && hist[d].delivered == [data]
      ensures old(states)[d] == Pending && !resolve ==> states[d] == Rejected && hist[d + 1].delivered == [data]
      decreases |script|, 5
    {
      var l := SettleList(d, resolve);
      DeferredIn(V(), {}, d);
      ListIn(V(), {}, l);
      rest := FireWith(l, data, script);
      if old(states)[d] == Pending { DeliveredSettles(V(), d, resolve, data); }
    }

    /** `notifyWith` */
    method Notify(d: nat, data: Data, script: seq<Action>) returns (rest: seq<Action>)
      requires Inv(V(), {}) && d in states && Spares(script, care)
      modifies this
      ensures Inv(V(), {}) && Evolves(old(V()), V()) && |rest| <= |script| && Spares(rest, care)
      ensures d + 2 in old(hist) && d + 2 in hist
      ensures if old(states)[d] != Pending then V() == old(V())
        else old(hist)[d + 2].requested + [data] <= hist[d + 2].requested
      decreases |script|, 5
    {
      DeferredIn(V(), {}, d);
      rest := FireWith(d + 2, data, script);
    }

    /** A call of one of the functions of a Deferred. */
    method PerformOnDeferred(action: Action, script: seq<Action>) returns (rest: seq<Action>)
      requires Inv(V(), {}) && Spares(script, care) && OnDeferred(action) && action.d in states
      modifies this
      ensures Inv(V(), {}) && Evolves(old(V()), V()) && |rest| <= |script| && Spares(rest, care)
      ensures DidOnDeferred(action, old(V()), V(), action.d)
      decreases |script|, 6
    {
      match action
      case Done(d, fns) => rest := Done(d, fns, script);
      case Fail(d, fns) => rest := Fail(d, fns, script);
      case Progress(d, fns) => rest := Progress(d, fns, script);
      case Settle(d, resolve, data) => rest := Settle(d, resolve, data, script);
      case Notify(d, data) => rest := Notify(d, data, script);
    }
  }
}
