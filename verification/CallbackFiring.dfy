/**
 One turn of the firing loop: the entry's call is logged, the callback runs, the index moves on.

 The turn has three moments. First the entry at `firingIndex` counts as called: it goes into the log with
 the arguments of the pass, and into what the pass has run. Then the callback does what it likes; when it
 is foreign code, all that is known of the world afterwards is that it has evolved from what it was, and
 that the list is still in its loop. At last the index moves on, unless the callback returned false and
 the list stops on that, or the list has been disabled meanwhile.
 */
module CallbackFiring {
  import opened Wrappers
  import opened CallbackLists
  import opened CallbackViews
  import opened CallbackSteps
  import opened Callbacks

  /** The entry at `firingIndex` is called. */
  ghost function Called(v: View, l: nat): View
    requires l in v.lists && l in v.hist && v.lists[l].list.Some?
    requires 0 <= v.lists[l].firingIndex < |v.lists[l].list.value|
  {
    var c, h := v.lists[l], v.hist[l];
    var tag := c.list.value[c.firingIndex].tag;
    PutList(v, l, c, Running(h, tag)).(calls := v.calls + [Call(l, h.pass, tag, h.passData)])
  }

  lemma CalledOk(v: View, l: nat, data: Data)
    requires Looping(v, l, data) && l in v.hist && v.lists[l].list.Some?
    requires v.lists[l].firingIndex < |v.lists[l].list.value|
    ensures Inv(Called(v, l), {l}) && ListOk(Called(v, l).lists[l], Called(v, l).hist[l], v.nextTag)
  {
    var c, h := v.lists[l], v.hist[l];
    var tag := c.list.value[c.firingIndex].tag;
    var w := Called(v, l);
    ListIn(v, {l}, l);
    RunningOk(c, h, v.nextTag);
    CalledLists(v, l, data);
    CalledCalls(v, l, data);
    assert DeferredsOk(w, {l}) by {
      PutKeepsDeferreds(v, {l}, l, c, Running(h, tag), v.nextTag);
      CalledDeferreds(v, l, PutList(v, l, c, Running(h, tag)).(nextTag := v.nextTag), w);
    }
    StillOnRecord(v, {l}, w);
  }

  lemma CalledLists(v: View, l: nat, data: Data)
    requires Looping(v, l, data) && l in v.hist && v.lists[l].list.Some?
    requires v.lists[l].firingIndex < |v.lists[l].list.value|
    ensures ListsOk(Called(v, l), {l})
  {
    var w := Called(v, l);
    CalledList(v, l, data);
    forall x | x in w.lists && x != l ensures OneListOk(w, {l}, x) {
      assert OneListOk(v, {l}, x);
      SameList(v, w, {l}, x);
    }
  }

  lemma CalledList(v: View, l: nat, data: Data)
    requires Looping(v, l, data) && l in v.hist && v.lists[l].list.Some?
    requires v.lists[l].firingIndex < |v.lists[l].list.value|
    ensures OneListOk(Called(v, l), {l}, l)
  {
    ListIn(v, {l}, l);
    assert PassesKept(v, l) by { assert OneListOk(v, {l}, l); }
    RunningOk(v.lists[l], v.hist[l], v.nextTag);
    CalledRan(v, l, data, l);
  }

  lemma CalledRan(v: View, l: nat, data: Data, x: nat)
    requires Looping(v, l, data) && l in v.hist && v.lists[l].list.Some?
    requires v.lists[l].firingIndex < |v.lists[l].list.value|
    requires x in v.lists && x in v.hist && RanWereCalled(v, x)
    ensures RanWereCalled(Called(v, l), x)
  {
    var w := Called(v, l);
    var tag := v.lists[l].list.value[v.lists[l].firingIndex].tag;
    assert w.calls[|v.calls|] == Call(l, v.hist[l].pass, tag, v.hist[l].passData);
    forall t | t in w.hist[x].called ensures WasCalled(w.calls, x, t) {
      if t in v.hist[x].called {
        var j :| 0 <= j < |v.calls| && v.calls[j].l == x && v.calls[j].tag == t;
        assert w.calls[j] == v.calls[j];
      }
    }
    forall t | t in w.hist[x].ran ensures Call(x, w.hist[x].pass, t, w.hist[x].passData) in w.calls {
      if t in v.hist[x].ran {
        assert Call(x, v.hist[x].pass, t, v.hist[x].passData) in v.calls;
      }
    }
  }

  lemma CalledCalls(v: View, l: nat, data: Data)
    requires Looping(v, l, data) && l in v.hist && v.lists[l].list.Some?
    requires v.lists[l].firingIndex < |v.lists[l].list.value|
    ensures CallsOk(Called(v, l))
  {
    var c, h := v.lists[l], v.hist[l];
    var w := Called(v, l);
    var n := |v.calls|;
    assert h.last < c.list.value[c.firingIndex].tag;
    assert FiresOk(c, h) by { ListIn(v, {l}, l); }
    forall j | 0 <= j < |w.calls| ensures CallOk(w, w.calls[j]) {
      if j < n { assert CallOk(v, v.calls[j]); }
    }
    forall i, j | 0 <= i < j < |w.calls| && w.calls[i].l == w.calls[j].l
      ensures InTurn(w.calls[i], w.calls[j])
      ensures OnceTags(w, w.calls[i].l, w.calls[i].tag, w.calls[j].tag)
    {
      assert CallOk(v, v.calls[i]);
      if j < n {
        assert OnceTags(v, v.calls[i].l, v.calls[i].tag, v.calls[j].tag);
      }
    }
  }

  /** A Deferred does not mind calls on lists that are not its own. */
  lemma CalledDeferreds(v: View, l: nat, u: View, w: View)
    requires DeferredsOk(u, {l}) && w == u.(calls := w.calls) && u.calls <= w.calls
    requires forall j | |u.calls| <= j < |w.calls| :: w.calls[j].l == l
    ensures DeferredsOk(w, {l})
  {
    forall d | d in w.states ensures OneDeferredOk(w, {l}, d) {
      assert OneDeferredOk(u, {l}, d);
      if d != l && d + 1 != l {
        forall j | 0 <= j < |w.calls| && w.calls[j].l != l ensures j < |u.calls| && w.calls[j] == u.calls[j] {}
      }
    }
  }

  /** The index moves to the next entry. */
  ghost function Advanced(v: View, l: nat): View
    requires l in v.lists && l in v.hist
  {
    PutList(v, l, v.lists[l].(firingIndex := v.lists[l].firingIndex + 1), v.hist[l])
  }

  lemma AdvancedOk(v: View, l: nat)
    requires Inv(v, {l}) && l in v.lists && v.lists[l].firing && ListOk(v.lists[l], v.hist[l], v.nextTag)
    ensures Inv(Advanced(v, l), {l}) && LoopOk(Advanced(v, l).lists[l], Advanced(v, l).hist[l])
  {
    ListIn(v, {l}, l);
    PutOk(v, {l}, l, v.lists[l].(firingIndex := v.lists[l].firingIndex + 1), v.hist[l], v.nextTag);
    assert Advanced(v, l).(nextTag := v.nextTag) == Advanced(v, l);
  }

  /** A foreign callback of a done or fail list leaves its Deferred in a settled state. */
  lemma CalledUser(v: View, l: nat, data: Data)
    requires Looping(v, l, data) && l in v.hist && v.lists[l].list.Some?
    requires v.lists[l].firingIndex < |v.lists[l].list.value|
    requires v.lists[l].list.value[v.lists[l].firingIndex].fn.User?
    ensures Inv(Called(v, l), {})
  {
    var w := Called(v, l);
    CalledOk(v, l, data);
    forall d, resolve {:trigger SettleList(d, resolve)} | d in w.states && SettleList(d, resolve) == l
      ensures DeferredOk(w, d)
    {
      CalledSettled(v, l, data, d, resolve);
    }
    Tighten(w, l);
  }

  lemma CalledSettled(v: View, l: nat, data: Data, d: nat, resolve: bool)
    requires Looping(v, l, data) && l in v.hist && v.lists[l].list.Some?
    requires v.lists[l].firingIndex < |v.lists[l].list.value|
    requires v.lists[l].list.value[v.lists[l].firingIndex].fn.User?
    requires d in v.states && l == SettleList(d, resolve)
    ensures DeferredOk(Called(v, l), d)
  {
    var c, h := v.lists[l], v.hist[l];
    var w := Called(v, l);
    assert HasLists(v, d) && SettleLoop(v, d, resolve);
    assert HasLists(w, d);
    CalledServing(v, l, data, d, resolve);
    var o := SettleList(d, !resolve);
    assert w.lists[o] == v.lists[o] && w.hist[o] == v.hist[o] && w.lists[d + 2] == v.lists[d + 2];
  }

  lemma CalledServing(v: View, l: nat, data: Data, d: nat, resolve: bool)
    requires Looping(v, l, data) && l in v.hist && v.lists[l].list.Some?
    requires v.lists[l].firingIndex < |v.lists[l].list.value|
    requires d in v.states && l == SettleList(d, resolve) && HasLists(v, d) && SettleLoop(v, d, resolve)
    ensures HasLists(Called(v, l), d) && Serving(Called(v, l), d, resolve, v.lists[l].firingIndex + 1)
  {
    var c, h := v.lists[l], v.hist[l];
    var w := Called(v, l);
    forall t | t in w.hist[l].added ensures t in w.hist[l].called || HasTag(c.list.value, c.firingIndex + 1, t) {
      if t !in h.called {
        var k :| c.firingIndex <= k < |c.list.value| && c.list.value[k].tag == t;
      }
    }
  }

  /** The call of an entry, seen from the beginning of the fire call. */
  lemma CalledFrom(start: View, v: View, l: nat, data: Data)
    requires Looping(v, l, data) && l in v.hist && v.lists[l].list.Some?
    requires v.lists[l].firingIndex < |v.lists[l].list.value|
    requires EvolvesBut(start, v, l) && l in start.lists && start.lists.Keys == start.hist.Keys
    ensures Inv(Called(v, l), {l}) && EvolvesBut(start, Called(v, l), l)
    ensures v.lists[l].list.value[v.lists[l].firingIndex].fn.User? ==> Inv(Called(v, l), {})
  {
    CalledOk(v, l, data);
    EvolvesButPut(v, Called(v, l), l);
    EvolvesButTransitive(start, v, Called(v, l), l);
    if v.lists[l].list.value[v.lists[l].firingIndex].fn.User? { CalledUser(v, l, data); }
  }

  /** Back from a foreign callback, the loop goes on. */
  lemma AdvancedLoops(v: View, l: nat, data: Data)
    requires Inv(v, {}) && l in v.lists && v.lists[l].firing && l in v.hist && v.hist[l].passData == data
    ensures Looping(Advanced(v, l), l, data)
  {
    ListIn(v, {}, l);
    assert Inv(v, {l}) by { Loosen(v, l); }
    AdvancedOk(v, l);
    var w := Advanced(v, l);
    forall d, resolve {:trigger SettleList(d, resolve)} | d in w.states && SettleList(d, resolve) == l
      ensures HasLists(w, d) && SettleLoop(w, d, resolve)
    {
      DeferredIn(v, {}, d);
      assert v.lists[SettleList(d, true)].firing || v.lists[SettleList(d, false)].firing;
      assert v.states[d] == SettledState(resolve);
      var o := SettleList(d, !resolve);
      assert w.lists[o] == v.lists[o] && w.hist[o] == v.hist[o] && w.lists[d + 2] == v.lists[d + 2];
      assert HasLists(w, d);
    }
  }

  lemma Loosen(v: View, l: nat)
    requires Inv(v, {})
    ensures Inv(v, {l})
  {
    forall x | x in v.lists ensures OneListOk(v, {l}, x) { assert OneListOk(v, {}, x); }
    forall d | d in v.states ensures OneDeferredOk(v, {l}, d) { assert OneDeferredOk(v, {}, d); }
  }

  lemma Tighten(v: View, l: nat)
    requires Inv(v, {l}) && l in v.lists && l in v.hist && ListOk(v.lists[l], v.hist[l], v.nextTag)
    requires forall d, resolve {:trigger SettleList(d, resolve)} | d in v.states && SettleList(d, resolve) == l ::
      DeferredOk(v, d)
    ensures Inv(v, {})
  {
    forall x | x in v.lists ensures OneListOk(v, {}, x) { assert OneListOk(v, {l}, x); }
    forall d | d in v.states ensures OneDeferredOk(v, {}, d) {
      assert OneDeferredOk(v, {l}, d);
      assert SettleList(d, true) == d && SettleList(d, false) == d + 1;
    }
  }

  /** The three internal functions of a done or fail list. */
  function Disabled(c: CbList): CbList {
    c.(list := None, stack := None, memory := None)
  }

  /** `lock` keeps the list only for those who come after a fire. */
  function Locked(c: CbList): CbList {
    if c.memory.None? then Disabled(c) else c.(stack := None)
  }

  /** What becomes of the history when a list is disabled or locked in the middle of a pass. */
  ghost function AfterLock(c: CbList, h: History): History {
    if c.firing && c.memory.None? then h.(disturbed := true) else h
  }

  lemma LockedList(c: CbList, h: History, nextTag: nat)
    requires ListOk(c, h, nextTag) && FiresOk(c, h) && NamesOk(c, h)
    ensures ListOk(Locked(c), AfterLock(c, h), nextTag) && FiresOk(Locked(c), AfterLock(c, h))
    ensures NamesOk(Locked(c), AfterLock(c, h))
    ensures c.firing && c.memory.None? ==> h.disturbed || !c.options.memory
    ensures ProgressLocked(c) ==> ProgressLocked(Locked(c))
  {}

  lemma DisabledList(c: CbList, h: History, nextTag: nat)
    requires ListOk(c, h, nextTag) && FiresOk(c, h) && NamesOk(c, h) && !c.firing
    ensures ListOk(Disabled(c), h, nextTag) && FiresOk(Disabled(c), h) && NamesOk(Disabled(c), h)
  {}

  ghost function AfterInternal(v: View, d: nat, resolve: bool, n: nat): View
    requires HasLists(v, d) && n < 3
  {
    if n == 0 then v.(states := v.states[d := SettledState(resolve)])
    else
      var l := if n == 1 then SettleList(d, !resolve) else d + 2;
      PutList(v, l, if n == 1 then Disabled(v.lists[l]) else Locked(v.lists[l]),
              if v.lists[l].firing && (n == 1 || v.lists[l].memory.None?) then v.hist[l].(disturbed := true)
                else v.hist[l])
  }

  lemma OtherState(v: View, w: View, out: set<nat>, d: nat, s: State, e: nat)
    requires d in v.states && w == v.(states := v.states[d := s]) && e in v.states && e != d && OneDeferredOk(v, out, e)
    ensures OneDeferredOk(w, out, e)
  {
    assert w.states[e] == v.states[e] && w.lists == v.lists && w.hist == v.hist && w.calls == v.calls;
  }

  lemma OtherList(v: View, w: View, out: set<nat>, d: nat, s: State, x: nat)
    requires d in v.states && w == v.(states := v.states[d := s]) && x in v.lists && x in v.hist && OneListOk(v, out, x)
    ensures OneListOk(w, out, x)
  {
    SameList(v, w, out, x);
  }

  lemma SettledInv(v: View, l: nat, d: nat, resolve: bool)
    requires Inv(v, {l}) && d in v.states && l == SettleList(d, resolve) && HasLists(v, d)
    ensures Inv(AfterInternal(v, d, resolve, 0), {l})
  {
    var w := AfterInternal(v, d, resolve, 0);
    assert ListsOk(w, {l}) by {
      forall x | x in w.lists ensures OneListOk(w, {l}, x) { OtherList(v, w, {l}, d, SettledState(resolve), x); }
    }
    assert DeferredsOk(w, {l}) by {
      forall e | e in w.states ensures OneDeferredOk(w, {l}, e) {
        if e != d { OtherState(v, w, {l}, d, SettledState(resolve), e); } else { assert OneDeferredOk(v, {l}, d); }
      }
    }
    assert CallsOk(w) by { CallsKept(v, w); }
    StillOnRecord(v, {l}, w);
  }

  lemma DisabledInv(v: View, l: nat, d: nat, resolve: bool)
    requires Inv(v, {l}) && d in v.states && l == SettleList(d, resolve) && HasLists(v, d) && Fresh(v, d, !resolve)
    ensures Inv(AfterInternal(v, d, resolve, 1), {l})
  {
    var w := AfterInternal(v, d, resolve, 1);
    var x := SettleList(d, !resolve);
    ListIn(v, {l}, x);
    forall e | e in v.states && (x == e || x == e + 1) ensures e == d {
      DeferredIn(v, {l}, d);
      DeferredIn(v, {l}, e);
    }
    DisabledList(v.lists[x], v.hist[x], v.nextTag);
    PutOk(v, {l}, x, Disabled(v.lists[x]), v.hist[x], v.nextTag);
    assert w.(nextTag := v.nextTag) == w;
  }

  lemma LockedInv(v: View, l: nat, d: nat, resolve: bool)
    requires Inv(v, {l}) && d in v.states && l == SettleList(d, resolve) && HasLists(v, d) && v.states[d] != Pending
    ensures Inv(AfterInternal(v, d, resolve, 2), {l})
  {
    var w := AfterInternal(v, d, resolve, 2);
    ListIn(v, {l}, d + 2);
    DeferredIn(v, {l}, d);
    LockedList(v.lists[d + 2], v.hist[d + 2], v.nextTag);
    PutOk(v, {l}, d + 2, Locked(v.lists[d + 2]), AfterLock(v.lists[d + 2], v.hist[d + 2]), v.nextTag);
    assert w.(nextTag := v.nextTag) == w;
  }

  lemma InternalInv(v: View, l: nat, d: nat, resolve: bool, n: nat)
    requires Inv(v, {l}) && d in v.states && l == SettleList(d, resolve) && HasLists(v, d) && n < 3
    requires (n == 1 ==> Fresh(v, d, !resolve)) && (n == 2 ==> v.states[d] != Pending)
    ensures Inv(AfterInternal(v, d, resolve, n), {l})
  {
    if n == 0 { SettledInv(v, l, d, resolve); }
    else if n == 1 { DisabledInv(v, l, d, resolve); }
    else { LockedInv(v, l, d, resolve); }
  }
}
