/**
 The internal functions of a Deferred, and the end of a firing pass.

 The first three entries of a done or fail list belong to the Deferred itself: one sets the state, one
 disables the other list, one locks progress. They are called like any other entry, so the loop meets
 the Deferred half settled, up to three times, before the first foreign callback runs. `Closing` says
 what holds in between, and the lemmas here lead from one such moment to the next.

 When the loop is over, `firing` is reset, and what the pass has run goes on record. Then the list
 either serves the next queued call, is emptied, or is idle again.
 */
module CallbackEnding {
  import opened Wrappers
  import opened CallbackLists
  import opened CallbackViews
  import opened CallbackSteps
  import opened Callbacks
  import opened CallbackFiring

  /** Only done and fail lists, in their first pass, have internal functions to call. */
  lemma InternalEntry(v: View, l: nat, data: Data) returns (d: nat, resolve: bool)
    requires Looping(v, l, data) && l in v.hist && v.lists[l].list.Some?
    requires v.lists[l].firingIndex < |v.lists[l].list.value|
    requires !v.lists[l].list.value[v.lists[l].firingIndex].fn.User?
    ensures d in v.states && l == SettleList(d, resolve) && HasLists(v, d) && SettleLoop(v, d, resolve)
    ensures v.hist[l].pass == 1 && v.lists[l].firingIndex < 3
    ensures v.lists[l].list.value[v.lists[l].firingIndex].fn ==
      [SetState(d, resolve), DisableList(SettleList(d, !resolve)), LockList(d + 2)][v.lists[l].firingIndex]
  {
    ListIn(v, {l}, l);
    assert IsSettleList(v, l);
    if l in v.states { d, resolve := l, true; } else { d, resolve := l - 1, false; }
    assert SettleList(d, resolve) == l;
  }

  /** Each internal function brings the loop to its next turn. */
  lemma InternalLoops(v: View, l: nat, data: Data, d: nat, resolve: bool)
    requires Looping(v, l, data) && l in v.hist && v.lists[l].list.Some?
    requires v.lists[l].firingIndex < |v.lists[l].list.value|
    requires d in v.states && l == SettleList(d, resolve) && HasLists(v, d) && SettleLoop(v, d, resolve)
    requires v.hist[l].pass == 1 && v.lists[l].firingIndex < 3
    ensures HasLists(Called(v, l), d)
    ensures Looping(Advanced(AfterInternal(Called(v, l), d, resolve, v.lists[l].firingIndex), l), l, data)
  {
    var n := v.lists[l].firingIndex;
    var w := Called(v, l);
    CalledOk(v, l, data);
    assert HasLists(w, d);
    ClosingCalled(v, l, data, d, resolve);
    if n == 0 { SettledInv(w, l, d, resolve); }
    else if n == 1 { DisabledInv(w, l, d, resolve); }
    else { LockedInv(w, l, d, resolve); }
    var u := AfterInternal(w, d, resolve, n);
    assert u.lists[l] == w.lists[l] && u.hist[l] == w.hist[l];
    ListIn(w, {l}, l);
    AdvancedOk(u, l);
    InternalSettles(v, l, data, d, resolve);
  }

  lemma ClosingCalled(v: View, l: nat, data: Data, d: nat, resolve: bool)
    requires Looping(v, l, data) && l in v.hist && v.lists[l].list.Some?
    requires v.lists[l].firingIndex < |v.lists[l].list.value|
    requires d in v.states && l == SettleList(d, resolve) && HasLists(v, d) && SettleLoop(v, d, resolve)
    requires v.hist[l].pass == 1 && v.lists[l].firingIndex < 3
    ensures HasLists(Called(v, l), d) && Closing(Called(v, l), d, resolve, v.lists[l].firingIndex)
  {
    var w := Called(v, l);
    var o := SettleList(d, !resolve);
    assert w.lists[o] == v.lists[o] && w.hist[o] == v.hist[o] && w.lists[d + 2] == v.lists[d + 2];
  }

  lemma InternalSettles(v: View, l: nat, data: Data, d: nat, resolve: bool)
    requires Looping(v, l, data) && l in v.hist && v.lists[l].list.Some?
    requires v.lists[l].firingIndex < |v.lists[l].list.value|
    requires d in v.states && l == SettleList(d, resolve) && HasLists(v, d) && SettleLoop(v, d, resolve)
    requires v.hist[l].pass == 1 && v.lists[l].firingIndex < 3
    ensures HasLists(Called(v, l), d)
    ensures SettleLooping(Advanced(AfterInternal(Called(v, l), d, resolve, v.lists[l].firingIndex), l), l)
  {
    var n := v.lists[l].firingIndex;
    var x := Advanced(AfterInternal(Called(v, l), d, resolve, n), l);
    OneDeferred(v, l, d, resolve);
    assert HasLists(x, d) && SettleLoop(x, d, resolve) by {
      NextClosing(v, l, data, d, resolve);
      CalledServing(v, l, data, d, resolve);
    }
    assert x.states.Keys == v.states.Keys;
  }

  lemma OneDeferred(v: View, l: nat, d: nat, resolve: bool)
    requires Inv(v, {l}) && d in v.states && l == SettleList(d, resolve)
    ensures forall e, r {:trigger SettleList(e, r)} :: e in v.states && SettleList(e, r) == l ==> e == d && r == resolve
  {
    forall e, r {:trigger SettleList(e, r)} | e in v.states && SettleList(e, r) == l ensures e == d && r == resolve {
      DeferredIn(v, {l}, d);
      DeferredIn(v, {l}, e);
    }
  }

  /** The other list is shut off and progress is locked, one after the other. */
  lemma NextClosing(v: View, l: nat, data: Data, d: nat, resolve: bool)
    requires Looping(v, l, data) && l in v.hist && v.lists[l].list.Some?
    requires v.lists[l].firingIndex < |v.lists[l].list.value|
    requires d in v.states && l == SettleList(d, resolve) && HasLists(v, d) && SettleLoop(v, d, resolve)
    requires v.hist[l].pass == 1 && v.lists[l].firingIndex < 3
    ensures HasLists(Called(v, l), d)
    ensures var n := v.lists[l].firingIndex;
      var x := Advanced(AfterInternal(Called(v, l), d, resolve, n), l);
      HasLists(x, d) && if n < 2 then Closing(x, d, resolve, n + 1)
        else x.states[d] == SettledState(resolve) && Closed(x, d, resolve)
  {
    ClosingCalled(v, l, data, d, resolve);
    assert v.hist[SettleList(d, !resolve)].called == {} || v.lists[SettleList(d, !resolve)].fired by {
      ListIn(v, {l}, SettleList(d, !resolve));
    }
    ProgressIsLocked(v, l, d);
    CloseNext(Called(v, l), l, d, resolve, v.lists[l].firingIndex);
  }

  lemma CloseNext(u: View, l: nat, d: nat, resolve: bool, n: nat)
    requires d in u.states && HasLists(u, d) && l == SettleList(d, resolve) && n < 3 && Closing(u, d, resolve, n)
    requires u.hist[SettleList(d, !resolve)].called == {} || u.lists[SettleList(d, !resolve)].fired
    requires ProgressLocked(Locked(u.lists[d + 2]))
    ensures var x := Advanced(AfterInternal(u, d, resolve, n), l);
      HasLists(x, d) && if n < 2 then Closing(x, d, resolve, n + 1)
        else x.states[d] == SettledState(resolve) && Closed(x, d, resolve)
  {
    var x := Advanced(AfterInternal(u, d, resolve, n), l);
    assert HasLists(x, d);
  }

  lemma ProgressIsLocked(v: View, l: nat, d: nat)
    requires Inv(v, {l}) && d in v.states && HasLists(v, d)
    ensures ProgressLocked(Locked(v.lists[d + 2]))
  {
    ListIn(v, {l}, d + 2);
  }

  /** The loop is over: `firing` is reset, and the pass goes on record unless it was broken off. */
  ghost function Ended(v: View, l: nat, stopped: bool): View
    requires l in v.lists && l in v.hist
  {
    var c, h := v.lists[l], v.hist[l];
    var clean := !h.disturbed && !stopped;
    PutList(v, l, c.(firing := false, memory := if stopped then None else c.memory),
            if clean then h else h.(broken := h.broken + {h.pass}))
      .(passes := if clean then v.passes + [Pass(l, h.pass, h.passData, h.entered, h.ran, h.dropped)] else v.passes)
  }

  /** The loop has run out of callbacks, the list is gone, or a callback has stopped it. */
  ghost predicate AtEnd(v: View, l: nat, stopped: bool)
    requires l in v.lists && l in v.hist
  {
    var c, h := v.lists[l], v.hist[l];
    && Inv(v, {l}) && c.firing
    && if stopped then c.options.stopOnFalse
       else LoopOk(c, h) && SettleLooping(v, l) && (c.list.None? || c.firingIndex >= c.firingLength)
  }

  lemma EndedInv(v: View, l: nat, stopped: bool)
    requires l in v.lists && l in v.hist && AtEnd(v, l, stopped)
    ensures Inv(Ended(v, l, stopped), {l}) && Ended(v, l, stopped).lists[l].firingStart == 0
  {
    var c, h := v.lists[l], v.hist[l];
    var w := Ended(v, l, stopped);
    ListIn(v, {l}, l);
    EndedLists(v, l, stopped);
    assert DeferredsOk(w, {l}) by {
      var u := PutList(v, l, w.lists[l], w.hist[l]).(nextTag := v.nextTag);
      PutKeepsDeferreds(v, {l}, l, w.lists[l], w.hist[l], v.nextTag);
      SameDeferreds(u, w, {l});
    }
    CallsKept(v, w);
    EndedRecord(v, l, stopped);
  }

  lemma EndedRecord(v: View, l: nat, stopped: bool)
    requires l in v.lists && l in v.hist && AtEnd(v, l, stopped)
    ensures var w := Ended(v, l, stopped); forall p {:trigger OnRecord(w, p)} | p in w.passes :: OnRecord(w, p)
  {
    var c, h := v.lists[l], v.hist[l];
    var w := Ended(v, l, stopped);
    ListIn(v, {l}, l);
    if !h.disturbed && !stopped { PassComplete(c, h); }
    forall p | p in w.passes ensures OnRecord(w, p) {
      if p in v.passes {
        assert OnRecord(v, p);
      } else {
        assert forall j | 0 <= j < |v.calls| :: CallOk(v, v.calls[j]);
      }
    }
  }

  lemma SameDeferreds(u: View, w: View, out: set<nat>)
    requires DeferredsOk(u, out) && w == u.(passes := w.passes)
    ensures DeferredsOk(w, out)
  {
    forall d | d in w.states ensures OneDeferredOk(w, out, d) { assert OneDeferredOk(u, out, d); }
  }

  lemma EndedLists(v: View, l: nat, stopped: bool)
    requires l in v.lists && l in v.hist && AtEnd(v, l, stopped)
    ensures ListsOk(Ended(v, l, stopped), {l})
  {
    var w := Ended(v, l, stopped);
    forall x | x in w.lists && x != l ensures OneListOk(w, {l}, x) {
      assert OneListOk(v, {l}, x);
      SameList(v, w, {l}, x);
    }
    EndedList(v, l, stopped);
  }

  lemma EndedList(v: View, l: nat, stopped: bool)
    requires l in v.lists && l in v.hist && AtEnd(v, l, stopped)
    ensures OneListOk(Ended(v, l, stopped), {l}, l)
  {
    var w := Ended(v, l, stopped);
    assert OneListOk(v, {l}, l);
    forall k | 1 <= k <= w.hist[l].pass ensures HasPass(w.passes, l, k) || k in w.hist[l].broken {
      if HasPass(v.passes, l, k) {
        StillHasPass(v.passes, w.passes, l, k);
      } else if k == w.hist[l].pass && |w.passes| > |v.passes| {
        assert w.passes[|v.passes|].l == l;
      }
    }
  }

  /** A list that takes no more fire calls keeps its arguments only, or nothing. */
  function Retired(c: CbList): CbList {
    if c.list.None? || c.stack.Some? then c else if c.memory.Some? then c.(list := Some([])) else Disabled(c)
  }

  /** What waits in the queue is fired next. */
  lemma EndedQueue(v: View, l: nat, stopped: bool)
    requires l in v.lists && l in v.hist && AtEnd(v, l, stopped)
    ensures var w := Ended(v, l, stopped); var c := w.lists[l];
      c.list.Some? && c.stack.Some? && c.stack.value != [] ==>
        CanFire(w, l, c.stack.value[0], Queued) && SettleCanFire(w, l, Queued)
  {
    EndedInv(v, l, stopped);
    var w := Ended(v, l, stopped);
    ListIn(w, {l}, l);
    if w.lists[l].stack.Some? {
      forall d, resolve {:trigger SettleList(d, resolve)} | d in w.states && SettleList(d, resolve) == l ensures false {
        DeferredIn(w, {l}, d);
      }
    }
  }

  /** Nothing waits: the list is idle again. */
  lemma EndedIdle(v: View, l: nat, stopped: bool)
    requires l in v.lists && l in v.hist && AtEnd(v, l, stopped)
    requires v.lists[l].stack.Some? ==> v.lists[l].stack.value == []
    ensures var w := Ended(v, l, stopped); Inv(PutList(w, l, Retired(w.lists[l]), w.hist[l]), {})
  {
    EndedInv(v, l, stopped);
    var w := Ended(v, l, stopped);
    var c, h := Retired(w.lists[l]), w.hist[l];
    ListIn(w, {l}, l);
    assert ListOk(c, h, w.nextTag);
    PutOk(w, {l}, l, c, h, w.nextTag);
    var z := PutList(w, l, c, h);
    assert z.(nextTag := w.nextTag) == z;
    forall d, resolve {:trigger SettleList(d, resolve)} | d in z.states && SettleList(d, resolve) == l
      ensures DeferredOk(z, d)
    {
      EndedSettled(v, l, stopped, d, resolve);
    }
    Tighten(z, l);
  }

  lemma EndedSettled(v: View, l: nat, stopped: bool, d: nat, resolve: bool)
    requires l in v.lists && l in v.hist && AtEnd(v, l, stopped) && d in v.states && SettleList(d, resolve) == l
    ensures var w := Ended(v, l, stopped); DeferredOk(PutList(w, l, Retired(w.lists[l]), w.hist[l]), d)
  {
    var w := Ended(v, l, stopped);
    var z := PutList(w, l, Retired(w.lists[l]), w.hist[l]);
    DeferredIn(v, {l}, d);
    ListIn(v, {l}, l);
    assert HasLists(v, d) && SettleLoop(v, d, resolve);
    assert HasLists(z, d);
    var o := SettleList(d, !resolve);
    assert z.lists[o] == v.lists[o] && z.hist[o] == v.hist[o] && z.lists[d + 2] == v.lists[d + 2];
  }

  lemma BegunEvolves(v: View, l: nat, data: Data, source: Source)
    requires Inv(v, {l}) && l in v.lists && l in v.hist && CanFire(v, l, data, source)
    ensures EvolvesBut(v, PutList(v, l, BegunList(v.lists[l], data, source),
        BegunHistory(v.lists[l], v.hist[l], data, source, v.nextTag)), l)
  {
    EvolvesButPut(v, PutList(v, l, BegunList(v.lists[l], data, source),
        BegunHistory(v.lists[l], v.hist[l], data, source, v.nextTag)), l);
  }

  lemma CalledEvolves(v: View, l: nat, data: Data)
    requires Looping(v, l, data) && l in v.hist && v.lists[l].list.Some?
    requires v.lists[l].firingIndex < |v.lists[l].list.value|
    ensures EvolvesBut(v, Called(v, l), l)
  {
    EvolvesButPut(v, Called(v, l), l);
  }

  lemma AdvancedEvolves(v: View, l: nat)
    requires Inv(v, {l}) && l in v.lists && l in v.hist
    ensures EvolvesBut(v, Advanced(v, l), l)
  {
    EvolvesButPut(v, Advanced(v, l), l);
  }

  lemma EndedEvolves(v: View, l: nat, stopped: bool)
    requires Inv(v, {l}) && l in v.lists && l in v.hist
    ensures EvolvesBut(v, Ended(v, l, stopped), l)
  {
    EvolvesButPut(v, Ended(v, l, stopped), l);
  }

  lemma InternalEvolves(v: View, l: nat, d: nat, resolve: bool, n: nat)
    requires Inv(v, {l}) && l in v.lists && l == SettleList(d, resolve)
    requires d in v.states && HasLists(v, d) && n < 3 && Closing(v, d, resolve, n)
    ensures EvolvesBut(v, AfterInternal(v, d, resolve, n), l)
  {
    var w := AfterInternal(v, d, resolve, n);
    if n == 0 {
      assert RecordGrew(v, w);
      forall x | x in v.lists && x != l ensures ListEvolves(v.lists[x], v.hist[x], w.lists[x], w.hist[x]) {}
    } else {
      var x := if n == 1 then SettleList(d, !resolve) else d + 2;
      EvolvesPut(v, x, w.lists[x], w.hist[x], v.nextTag);
      assert w.(nextTag := v.nextTag) == w;
      EvolvesForgets(v, w, l);
    }
  }

  ghost function Begun(v: View, l: nat, data: Data, source: Source): View
    requires l in v.lists && l in v.hist && CanFire(v, l, data, source)
  {
    PutList(v, l, BegunList(v.lists[l], data, source), BegunHistory(v.lists[l], v.hist[l], data, source, v.nextTag))
  }

  lemma BegunLoops(v: View, l: nat, data: Data, source: Source)
    requires Inv(v, {l}) && l in v.lists && l in v.hist && CanFire(v, l, data, source) && SettleCanFire(v, l, source)
    ensures Looping(Begun(v, l, data, source), l, data) && EvolvesBut(v, Begun(v, l, data, source), l)
  {
    BegunListOk(v, l, data, source);
    BegunFiresOk(v, l, data, source) by { ListIn(v, {l}, l); }
    BegunInv(v, l, BegunList(v.lists[l], data, source), BegunHistory(v.lists[l], v.hist[l], data, source, v.nextTag));
    BegunSettle(v, l, data, source);
    BegunEvolves(v, l, data, source);
  }

  /** After an internal function: the loop is at its next turn, and other lists have hardly moved. */
  lemma InternalTurn(v: View, l: nat, data: Data, d: nat, resolve: bool)
    requires Looping(v, l, data) && l in v.hist && v.lists[l].list.Some?
    requires v.lists[l].firingIndex < |v.lists[l].list.value|
    requires d in v.states && l == SettleList(d, resolve) && HasLists(v, d) && SettleLoop(v, d, resolve)
    requires v.hist[l].pass == 1 && v.lists[l].firingIndex < 3
    ensures HasLists(Called(v, l), d)
    ensures var w := AfterInternal(Called(v, l), d, resolve, v.lists[l].firingIndex);
      Inv(w, {l}) && Looping(Advanced(w, l), l, data) && EvolvesBut(v, w, l)
  {
    var n := v.lists[l].firingIndex;
    CalledOk(v, l, data);
    ClosingCalled(v, l, data, d, resolve);
    InternalLoops(v, l, data, d, resolve);
    InternalInv(Called(v, l), l, d, resolve, n);
    InternalEvolves(Called(v, l), l, d, resolve, n);
    CalledEvolves(v, l, data);
    EvolvesButTransitive(v, Called(v, l), AfterInternal(Called(v, l), d, resolve, n), l);
  }

  lemma InternalTurnFrom(start: View, v: View, l: nat, data: Data, d: nat, resolve: bool)
    requires Looping(v, l, data) && l in v.hist && v.lists[l].list.Some?
    requires v.lists[l].firingIndex < |v.lists[l].list.value|
    requires d in v.states && l == SettleList(d, resolve) && HasLists(v, d) && SettleLoop(v, d, resolve)
    requires v.hist[l].pass == 1 && v.lists[l].firingIndex < 3
    requires EvolvesBut(start, v, l) && l in start.lists && start.lists.Keys == start.hist.Keys
    ensures HasLists(Called(v, l), d)
    ensures var w := AfterInternal(Called(v, l), d, resolve, v.lists[l].firingIndex);
      Inv(w, {l}) && Looping(Advanced(w, l), l, data) && EvolvesBut(start, w, l)
  {
    InternalTurn(v, l, data, d, resolve);
    EvolvesButTransitive(start, v, AfterInternal(Called(v, l), d, resolve, v.lists[l].firingIndex), l);
  }

  /** The same, with the Deferred that the list belongs to. */
  lemma InternalTurnOf(start: View, v: View, l: nat, data: Data) returns (d: nat, resolve: bool)
    requires Looping(v, l, data) && l in v.hist && v.lists[l].list.Some?
    requires v.lists[l].firingIndex < |v.lists[l].list.value|
    requires !v.lists[l].list.value[v.lists[l].firingIndex].fn.User?
    requires EvolvesBut(start, v, l) && l in start.lists && start.lists.Keys == start.hist.Keys
    ensures d in v.states && l == SettleList(d, resolve) && HasLists(v, d) && HasLists(Called(v, l), d)
    ensures v.lists[l].firingIndex < 3
    ensures v.lists[l].list.value[v.lists[l].firingIndex].fn ==
      [SetState(d, resolve), DisableList(SettleList(d, !resolve)), LockList(d + 2)][v.lists[l].firingIndex]
    ensures var w := AfterInternal(Called(v, l), d, resolve, v.lists[l].firingIndex);
      && Inv(w, {l}) && Looping(Advanced(w, l), l, data) && EvolvesBut(start, w, l)
      && w.lists[l] == v.lists[l] && SamePass(v.hist[l], w.hist[l])
  {
    d, resolve := InternalEntry(v, l, data);
    InternalTurnFrom(start, v, l, data, d, resolve);
  }

  /** Nothing else moves a pass that is under way; more callbacks may enter it. */
  ghost predicate SamePass(h: History, h': History) {
    h'.pass == h.pass && h'.passData == h.passData && h.entered <= h'.entered && h'.delivered == h.delivered
  }

  lemma EndedEvolved(start: View, v: View, l: nat, stopped: bool)
    requires l in v.lists && l in v.hist && AtEnd(v, l, stopped)
    requires EvolvesBut(start, v, l) && l in start.lists && start.lists.Keys == start.hist.Keys
    requires !start.lists[l].firing
    ensures Evolves(start, Ended(v, l, stopped))
  {
    EndedEvolves(v, l, stopped);
    EvolvesButTransitive(start, v, Ended(v, l, stopped), l);
    EvolvesAgain(start, Ended(v, l, stopped), l);
  }
}
