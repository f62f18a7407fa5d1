/**
 Each simple operation on a list, outside the firing loop, keeps everything right: adding a callback,
 removing one, emptying, disabling and locking a list, queueing a fire call, and making new lists and
 Deferreds.

 Every operation comes as a step from one view of the world to the next. For each there is a lemma that
 the invariant holds again after it, and that the world has evolved: calls and passes on record stay
 there, no list forgets what it has called, and no settled Deferred changes. A list that is inside its
 own firing loop may be hit by any of them; so the lemmas do not ask that lists are at rest, and leave
 it to the account of the list to say which entries a pass still owes.
 */
module CallbackMoves {
  import opened Wrappers
  import opened CallbackLists
  import opened CallbackViews
  import opened CallbackSteps
  import opened Callbacks
  import opened CallbackFiring

  /** The Deferred that a list belongs to can take more callbacks. */
  ghost predicate AddingAt(v: View, l: nat) {
    forall d, resolve {:trigger SettleList(d, resolve)} | d in v.states && SettleList(d, resolve) == l :: Adding(v, d)
  }

  ghost predicate CanAdd(v: View, l: nat) {
    && Inv(v, {l}) && l in v.lists && l in v.hist && ListOk(v.lists[l], v.hist[l], v.nextTag) && AddingAt(v, l)
  }

  ghost function PushedView(v: View, l: nat, fn: Fn): View
    requires l in v.lists && l in v.hist && v.lists[l].list.Some?
  {
    PutList(v, l, Pushed(v.lists[l], Entry(fn, v.nextTag)),
        PushedHistory(v.lists[l], v.hist[l], Entry(fn, v.nextTag))).(nextTag := v.nextTag + 1)
  }

  lemma PushStart(v: View, l: nat)
    requires Inv(v, {}) && l in v.lists
    ensures l in v.hist && CanAdd(v, l)
  {
    ListIn(v, {}, l);
    Loosen(v, l);
    forall d, resolve {:trigger SettleList(d, resolve)} | d in v.states && SettleList(d, resolve) == l
      ensures Adding(v, d)
    {
      DeferredIn(v, {}, d);
    }
  }

  lemma PushStep(v: View, l: nat, fn: Fn)
    requires l in v.lists && l in v.hist && CanAdd(v, l) && v.lists[l].list.Some? && fn.User?
    ensures CanAdd(PushedView(v, l, fn), l) && Evolves(v, PushedView(v, l, fn))
  {
    var w := PushedView(v, l, fn);
    ListIn(v, {l}, l);
    PushOk(v.lists[l], v.hist[l], fn, v.nextTag);
    PushKeepsNames(v.lists[l], v.hist[l], Entry(fn, v.nextTag));
    assert AllUser(v.lists[l].list.value, 0) ==> AllUser(w.lists[l].list.value, 0);
    PutOk(v, {l}, l, w.lists[l], w.hist[l], w.nextTag);
    EvolvesPut(v, l, w.lists[l], w.hist[l], w.nextTag);
    PushAddingAt(v, l, fn);
  }

  /** Only list `l` has changed, and only by new entries at its end. */
  ghost predicate OnlyPushed(a: View, b: View, l: nat) {
    && l in a.lists && l in a.hist && l in b.lists && l in b.hist && b.lists == a.lists[l := b.lists[l]]
    && b.lists[l] == a.lists[l].(list := b.lists[l].list, firingLength := b.lists[l].firingLength)
    && a.lists[l].list.Some? && b.lists[l].list.Some? && |a.lists[l].list.value| <= |b.lists[l].list.value|
    && b.states == a.states && b.calls == a.calls && b.hist[l].pass == a.hist[l].pass
  }

  lemma OnlyPushedStep(a: View, b: View, l: nat, fn: Fn)
    requires OnlyPushed(a, b, l)
    ensures OnlyPushed(a, PushedView(b, l, fn), l)
  {}

  lemma PushAddingAt(v: View, l: nat, fn: Fn)
    requires l in v.lists && l in v.hist && AddingAt(v, l) && v.lists[l].list.Some? && fn.User?
    ensures AddingAt(PushedView(v, l, fn), l)
  {
    var w := PushedView(v, l, fn);
    forall d, resolve {:trigger SettleList(d, resolve)} | d in w.states && SettleList(d, resolve) == l
      ensures Adding(w, d)
    {
      assert Adding(v, d);
      PushAdding(v, d, resolve, fn);
    }
  }

  /** No pass has to be started for the new callbacks. */
  lemma PushEnd(v: View, l: nat)
    requires l in v.lists && l in v.hist && CanAdd(v, l) && v.lists[l].list.Some?
    requires (v.lists[l].firing || v.lists[l].memory.None?)
    ensures Inv(v, {})
  {
    forall d, resolve {:trigger SettleList(d, resolve)} | d in v.states && SettleList(d, resolve) == l
      ensures DeferredOk(v, d)
    {
      assert Adding(v, d);
    }
    Tighten(v, l);
  }

  /** New callbacks of a list that has fired are run at once, with the arguments it remembers. */
  lemma PushReplay(u: View, v: View, l: nat)
    requires Inv(u, {}) && l in u.lists && l in v.lists && l in v.hist && CanAdd(v, l) && u.states == v.states
    requires v.lists[l].list.Some? && !v.lists[l].firing && v.lists[l].memory.Some?
    requires u.lists[l].list.Some? && !u.lists[l].firing && u.lists[l].memory.Some?
    requires |u.lists[l].list.value| <= |v.lists[l].list.value|
    ensures var w := PutList(v, l, v.lists[l].(firingStart := |u.lists[l].list.value|), v.hist[l]);
      && Inv(w, {l}) && Evolves(v, w)
      && CanFire(w, l, v.lists[l].memory.value, Replay) && SettleCanFire(w, l, Replay)
  {
    var w := PutList(v, l, v.lists[l].(firingStart := |u.lists[l].list.value|), v.hist[l]);
    assert w.(nextTag := v.nextTag) == w;
    ListIn(v, {l}, l);
    PutOk(v, {l}, l, w.lists[l], w.hist[l], v.nextTag);
    EvolvesPut(v, l, w.lists[l], w.hist[l], v.nextTag);
    forall d, resolve {:trigger SettleList(d, resolve)} | d in w.states && SettleList(d, resolve) == l
      ensures Adding(w, d) && w.states[d] == SettledState(resolve) && w.lists[l].firingStart == 0
    {
      ReplaySettled(u, v, w, l, d, resolve);
    }
  }

  lemma ReplaySettled(u: View, v: View, w: View, l: nat, d: nat, resolve: bool)
    requires Inv(u, {}) && l in u.lists && l in v.lists && l in v.hist && CanAdd(v, l) && u.states == v.states
    requires v.lists[l].list.Some? && !v.lists[l].firing && v.lists[l].memory.Some?
    requires u.lists[l].list.Some? && !u.lists[l].firing && u.lists[l].memory.Some?
    requires d in v.states && SettleList(d, resolve) == l
    requires w == PutList(v, l, v.lists[l].(firingStart := |u.lists[l].list.value|), v.hist[l])
    ensures Adding(w, d) && w.states[d] == SettledState(resolve) && w.lists[l].firingStart == 0
  {
    ListIn(u, {}, l);
    DeferredIn(u, {}, d);
    assert Adding(v, d);
    var o := SettleList(d, !resolve);
    assert w.lists[o] == v.lists[o] && w.hist[o] == v.hist[o] && w.lists[d + 2] == v.lists[d + 2];
    assert HasLists(w, d);
  }

  /** A list of its own, not part of a Deferred. */
  ghost predicate FreeStanding(v: View, l: nat) {
    l in v.lists && l in v.hist && !OwnedByDeferred(v, l)
  }

  /** A change in place of such a list. */
  lemma PlainStep(v: View, l: nat, c: CbList, h: History)
    requires Inv(v, {}) && FreeStanding(v, l) && ListOk(c, h, v.nextTag) && (c.list.Some? ==> AllUser(c.list.value, 0))
    requires SameRun(v.hist[l], h) && ListEvolves(v.lists[l], v.hist[l], c, h)
    requires FiresOk(c, h) && NoneBack(v.lists[l], c, v.nextTag) && NamesKept(v, l, c, h)
    requires Safe(v, l) ==> (c.firing ==> !h.disturbed) && Remembers(c)
    ensures Inv(PutList(v, l, c, h), {}) && Evolves(v, PutList(v, l, c, h))
  {
    var w := PutList(v, l, c, h);
    assert w == w.(nextTag := v.nextTag);
    PutOk(v, {}, l, c, h, v.nextTag);
    EvolvesPut(v, l, c, h, v.nextTag);
  }

  lemma RemoveStep(v: View, l: nat, index: nat)
    requires Inv(v, {}) && FreeStanding(v, l) && v.lists[l].list.Some? && index < |v.lists[l].list.value|
    requires !IsKept(v.care, l, v.lists[l].list.value[index].fn)
    ensures var w := PutList(v, l, RemoveAt(v.lists[l], index), DropAt(v.lists[l], v.hist[l], index));
      Inv(w, {}) && Evolves(v, w) && FreeStanding(w, l)
  {
    ListIn(v, {}, l);
    RemovedList(v.lists[l], v.hist[l], index, v.nextTag);
    PlainStep(v, l, RemoveAt(v.lists[l], index), DropAt(v.lists[l], v.hist[l], index));
  }

  lemma RemovedList(c: CbList, h: History, index: nat, nextTag: nat)
    requires ListOk(c, h, nextTag) && FiresOk(c, h) && NamesOk(c, h) && c.list.Some? && index < |c.list.value|
    ensures var c', h' := RemoveAt(c, index), DropAt(c, h, index);
      && ListOk(c', h', nextTag) && FiresOk(c', h') && NamesOk(c', h') && NoneBack(c, c', nextTag)
      && SameRun(h, h') && ListEvolves(c, h, c', h') && h'.disturbed == h.disturbed && c'.list.Some?
      && h'.names == h.names && h'.dropped <= h.dropped + {c.list.value[index].tag}
      && (AllUser(c.list.value, 0) ==> AllUser(c'.list.value, 0)) && Named(h, c.list.value[index])
  {
    RemoveAtOk(c, h, index, nextTag);
    RemovedEntries(c.list.value, h, index, 0);
    RemoveKeepsNames(c, h, index);
  }

  /** What breaks off a pass, if the list is firing. */
  ghost function Broken(c: CbList, h: History): History {
    if c.firing then h.(disturbed := true) else h
  }

  lemma EmptyStep(v: View, l: nat)
    requires Inv(v, {}) && FreeStanding(v, l) && (v.lists[l].firing ==> !Safe(v, l))
    ensures var w := PutList(v, l, v.lists[l].(list := Some([]), firingLength := 0), Broken(v.lists[l], v.hist[l]));
      Inv(w, {}) && Evolves(v, w)
  {
    ListIn(v, {}, l);
    PlainStep(v, l, v.lists[l].(list := Some([]), firingLength := 0), Broken(v.lists[l], v.hist[l]));
  }

  lemma DisableStep(v: View, l: nat)
    requires Inv(v, {}) && FreeStanding(v, l) && !Safe(v, l)
    ensures var w := PutList(v, l, Disabled(v.lists[l]), Broken(v.lists[l], v.hist[l]));
      Inv(w, {}) && Evolves(v, w)
  {
    ListIn(v, {}, l);
    PlainStep(v, l, Disabled(v.lists[l]), Broken(v.lists[l], v.hist[l]));
  }

  lemma LockStep(v: View, l: nat)
    requires Inv(v, {}) && FreeStanding(v, l) && (v.lists[l].firing ==> !Safe(v, l))
    ensures var c := v.lists[l];
      var w := PutList(v, l, Locked(c), if c.memory.None? then Broken(c, v.hist[l]) else v.hist[l]);
      Inv(w, {}) && Evolves(v, w)
  {
    ListIn(v, {}, l);
    PlainStep(v, l, Locked(v.lists[l]), if v.lists[l].memory.None? then Broken(v.lists[l], v.hist[l]) else v.hist[l]);
  }

  /** A fire call on a list that is firing waits in the queue. */
  ghost function QueuedView(v: View, l: nat, data: Data): View
    requires l in v.lists && l in v.hist && v.lists[l].stack.Some?
  {
    PutList(v, l, v.lists[l].(stack := Some(v.lists[l].stack.value + [data])),
            v.hist[l].(requested := v.hist[l].requested + [data]))
  }

  lemma QueueStep(v: View, l: nat, data: Data)
    requires Inv(v, {}) && l in v.lists && l in v.hist && v.lists[l].firing && v.lists[l].stack.Some?
    ensures Inv(QueuedView(v, l, data), {}) && Evolves(v, QueuedView(v, l, data))
  {
    var w := QueuedView(v, l, data);
    assert w == w.(nextTag := v.nextTag);
    ListIn(v, {}, l);
    var h := v.hist[l];
    assert h.delivered + (v.lists[l].stack.value + [data]) == h.requested + [data];
    QueueIsPlain(v, l);
    PutOk(v, {}, l, w.lists[l], w.hist[l], v.nextTag);
    EvolvesPut(v, l, w.lists[l], w.hist[l], v.nextTag);
  }

  /** The done and fail lists of a Deferred have no queue. */
  lemma QueueIsPlain(v: View, l: nat)
    requires Inv(v, {}) && l in v.lists && v.lists[l].stack.Some?
    ensures !IsSettleList(v, l)
  {
    ListIn(v, {}, l);
    if l in v.states { DeferredIn(v, {}, l); }
    if l >= 1 && l - 1 in v.states { DeferredIn(v, {}, l - 1); }
  }

  lemma DirectFire(v: View, l: nat, data: Data)
    requires Inv(v, {}) && l in v.lists && l in v.hist && !v.lists[l].firing
    requires v.lists[l].list.Some? && (!v.lists[l].fired || v.lists[l].stack.Some?)
    ensures CanFire(v, l, data, Direct) && SettleCanFire(v, l, Direct) && Inv(v, {l})
  {
    ListIn(v, {}, l);
    Loosen(v, l);
    forall d, resolve {:trigger SettleList(d, resolve)} | d in v.states && SettleList(d, resolve) == l
      ensures Adding(v, d) && v.states[d] == Pending
    {
      DeferredIn(v, {}, d);
    }
  }

  ghost function NewListView(v: View, options: Options): View {
    PutList(v, v.nextId, NewList(options), NewHistory()).(nextId := v.nextId + 1)
  }

  lemma NewListStep(v: View, options: Options)
    requires Inv(v, {})
    ensures Inv(NewListView(v, options), {}) && Evolves(v, NewListView(v, options)) && v.nextId !in v.lists
  {
    var w := NewListView(v, options);
    OlderLists(v);
    NewListLists(v, options);
    assert DeferredsOk(w, {}) by {
      forall d | d in w.states ensures OneDeferredOk(w, {}, d) { OlderDeferred(v, w, d); }
    }
    assert CallsOk(w) by { CallsKept(v, w); }
    StillOnRecord(v, {}, w);
    EvolvesNew(v, w);
  }

  lemma NewListLists(v: View, options: Options)
    requires Inv(v, {})
    ensures ListsOk(NewListView(v, options), {})
  {
    var w := NewListView(v, options);
    OlderLists(v);
    forall l | l in w.lists ensures OneListOk(w, {}, l) {
      if l in v.lists {
        assert OneListOk(v, {}, l);
        SameList(v, w, {}, l);
      } else {
        NewListOk(v, options);
      }
    }
  }

  lemma NewListOk(v: View, options: Options)
    ensures OneListOk(NewListView(v, options), {}, v.nextId)
  {
    NewListRight(options, v.nextTag);
  }

  lemma NewListRight(options: Options, nextTag: nat)
    ensures ListOk(NewList(options), NewHistory(), nextTag)
    ensures FiresOk(NewList(options), NewHistory()) && NamesOk(NewList(options), NewHistory())
  {}

  lemma OlderLists(v: View)
    requires Inv(v, {})
    ensures forall l <- v.lists :: l < v.nextId
  {
    forall l | l in v.lists ensures l < v.nextId { assert OneListOk(v, {}, l); }
  }

  lemma EvolvesNew(v: View, w: View)
    requires RecordGrew(v, w) && v.lists.Keys == v.hist.Keys
    requires forall l <- v.lists :: w.lists[l] == v.lists[l] && w.hist[l] == v.hist[l]
    requires forall l <- w.lists :: l !in v.lists ==> !w.lists[l].firing
    ensures Evolves(v, w)
  {
    forall l | l in v.lists ensures ListEvolves(v.lists[l], v.hist[l], w.lists[l], w.hist[l]) {}
  }

  /** New lists are no concern of a Deferred that is already there. */
  lemma OlderDeferred(v: View, w: View, d: nat)
    requires Inv(v, {}) && d in v.states && d in w.states && w.states[d] == v.states[d] && w.calls == v.calls
    requires v.nextId <= w.nextId
    requires forall l: nat | l < v.nextId && l in v.lists && l in v.hist ::
      l in w.lists && l in w.hist && w.lists[l] == v.lists[l] && w.hist[l] == v.hist[l]
    ensures OneDeferredOk(w, {}, d)
  {
    assert OneDeferredOk(v, {}, d);
  }

  /** The list of a new Deferred: its first three callbacks settle the state and close the others. */
  function NewSettleList(d: nat, resolve: bool, tag: nat): CbList {
    var s := [Entry(SetState(d, resolve), tag), Entry(DisableList(SettleList(d, !resolve)), tag + 1),
              Entry(LockList(d + 2), tag + 2)];
    NewList(SettleOptions).(list := Some(s))
  }

  ghost function SettleHistory(d: nat, resolve: bool, tag: nat): History {
    NewHistory().(added := {tag, tag + 1, tag + 2},
      names := map[tag := SetState(d, resolve), tag + 1 := DisableList(SettleList(d, !resolve)),
                   tag + 2 := LockList(d + 2)])
  }

  ghost function NewDeferredView(v: View): View {
    var d, t := v.nextId, v.nextTag;
    var h := NewHistory();
    var h1, h2 := SettleHistory(d, true, t), SettleHistory(d, false, t + 3);
    v.(lists := v.lists[d := NewSettleList(d, true, t)]
                       [d + 1 := NewSettleList(d, false, t + 3)][d + 2 := NewList(ProgressOptions)],
       hist := v.hist[d := h1][d + 1 := h2][d + 2 := h],
       states := v.states[d := Pending], nextId := d + 3, nextTag := t + 6)
  }

  lemma NewDeferredStep(v: View)
    requires Inv(v, {})
    ensures Inv(NewDeferredView(v), {}) && Evolves(v, NewDeferredView(v))
  {
    var w := NewDeferredView(v);
    NewDeferredEvolves(v);
    NewDeferredLists(v);
    NewDeferredsOk(v);
    CallsKept(v, w);
    StillOnRecord(v, {}, w);
  }

  lemma NewDeferredEvolves(v: View)
    requires Inv(v, {})
    ensures var w := NewDeferredView(v); Evolves(v, w) && v.lists.Keys <= w.lists.Keys && v.hist.Keys <= w.hist.Keys
    ensures forall l <- v.lists :: NewDeferredView(v).lists[l] == v.lists[l] && NewDeferredView(v).hist[l] == v.hist[l]
  {
    OlderLists(v);
    EvolvesNew(v, NewDeferredView(v));
  }

  lemma NewDeferredLists(v: View)
    requires Inv(v, {})
    ensures ListsOk(NewDeferredView(v), {})
  {
    var w, d := NewDeferredView(v), v.nextId;
    forall l | l in w.lists ensures OneListOk(w, {}, l) {
      if l in v.lists {
        assert OneListOk(v, {}, l);
        NewDeferredOther(v, l);
        SameList(v, w, {}, l);
      } else {
        NewDeferredList(v, l);
      }
    }
  }

  lemma NewDeferredOther(v: View, l: nat)
    requires Inv(v, {}) && l in v.lists
    ensures var w := NewDeferredView(v); l < v.nextId && IsSettleList(w, l) == IsSettleList(v, l)
    ensures var w := NewDeferredView(v);
      l in w.lists && l in w.hist && l in v.hist && w.lists[l] == v.lists[l] && w.hist[l] == v.hist[l]
  {
    OlderLists(v);
  }

  lemma NewDeferredList(v: View, l: nat)
    requires Inv(v, {}) && v.nextId <= l < v.nextId + 3
    ensures OneListOk(NewDeferredView(v), {}, l)
  {
    var w, d, t := NewDeferredView(v), v.nextId, v.nextTag;
    if l == d + 2 {
      NewListRight(ProgressOptions, w.nextTag);
    } else {
      NewSettleListOk(d, l == d, if l == d then t else t + 3, w.nextTag);
      assert IsSettleList(w, l);
    }
  }

  lemma NewSettleListOk(d: nat, resolve: bool, tag: nat, nextTag: nat)
    requires tag + 3 <= nextTag
    ensures ListOk(NewSettleList(d, resolve, tag), SettleHistory(d, resolve, tag), nextTag)
    ensures NamesOk(NewSettleList(d, resolve, tag), SettleHistory(d, resolve, tag))
    ensures FiresOk(NewSettleList(d, resolve, tag), SettleHistory(d, resolve, tag))
  {
    assert forall k | 0 <= k < 3 :: NewSettleList(d, resolve, tag).list.value[k].tag == tag + k;
  }

  lemma NewDeferredsOk(v: View)
    requires Inv(v, {})
    ensures DeferredsOk(NewDeferredView(v), {}) && Apart(NewDeferredView(v)) && v.nextId !in v.states
  {
    NewDeferredOk(v);
    NewDeferredOlder(v);
  }

  lemma NewDeferredOk(v: View)
    ensures OneDeferredOk(NewDeferredView(v), {}, v.nextId)
  {
    NewDeferredFresh(v, true);
    NewDeferredFresh(v, false);
  }

  lemma NewDeferredOlder(v: View)
    requires Inv(v, {})
    ensures forall e <- v.states :: OneDeferredOk(NewDeferredView(v), {}, e) && e + 2 < v.nextId
  {
    var w := NewDeferredView(v);
    forall e | e in v.states ensures OneDeferredOk(w, {}, e) && e + 2 < v.nextId {
      DeferredIn(v, {}, e);
      OlderDeferred(v, w, e);
    }
  }

  lemma NewDeferredFresh(v: View, resolve: bool)
    ensures HasLists(NewDeferredView(v), v.nextId) && Fresh(NewDeferredView(v), v.nextId, resolve)
  {
    var w, d := NewDeferredView(v), v.nextId;
    assert HasLists(w, d);
    var s := w.lists[SettleList(d, resolve)].list.value;
    forall t | t in w.hist[SettleList(d, resolve)].added ensures HasTag(s, 0, t) {
      assert s[0].tag == t || s[1].tag == t || s[2].tag == t;
    }
  }
}
