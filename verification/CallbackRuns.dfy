/**
 What the record of a run says, whatever the callbacks did. The invariant holds whenever foreign code
 has the word; so what follows from it here is true in the middle of passes too.
 */
module CallbackRuns {
  import opened Wrappers
  import opened CallbackLists
  import opened CallbackViews
  import opened CallbackSteps
  import opened Callbacks
  import opened CallbackOperations

  /** The lists that a script never empties, disables or locks, and the callbacks that it never removes
      from a list. */
  ghost function LeftAlone(script: seq<Action>): Care {
    Care(iset l: nat | Spares(script, Care(iset{l}, iset{})),
         iset p: (nat, nat) | Spares(script, Care(iset{}, iset{p})))
  }

  lemma SparesLeftAlone(script: seq<Action>)
    ensures Spares(script, LeftAlone(script))
  {
    forall i | 0 <= i < |script| ensures Gentle(script[i], LeftAlone(script)) {
      var a := script[i];
      assert forall l: nat | l in LeftAlone(script).spared :: Gentle(a, Care(iset{l}, iset{}));
      assert forall p | p in LeftAlone(script).kept :: Gentle(a, Care(iset{}, iset{p}));
    }
  }

  /** A whole run in a new world: foreign code makes any calls, callbacks and all. */
  method Run(script: seq<Action>) returns (world: CallbackWorld)
    ensures fresh(world) && world.care == LeftAlone(script)
    ensures Inv(world.V(), {}) && Quiet(world.V())
  {
    world := new CallbackWorld(LeftAlone(script));
    ghost var start := world.V();
    EvolvesNothing(start);
    SparesLeftAlone(script);
    var rest := script;
    while rest != []
      invariant fresh(world) && Inv(world.V(), {}) && Evolves(start, world.V()) && Spares(rest, world.care)
      decreases |rest|
    {
      ghost var v := world.V();
      var _, after := world.RunForeign(rest);
      rest := after;
      EvolvesTransitive(start, v, world.V());
    }
    QuietAgain(start, world.V());
  }

  /** Call number `j` is the one and only call of this entry by this list, or by this pass of it. */
  ghost predicate OnlyCall(v: View, l: nat, t: nat, j: nat) {
    && j < |v.calls| && v.calls[j].l == l && v.calls[j].tag == t
    && forall i | 0 <= i < |v.calls| && v.calls[i].l == l && v.calls[i].tag == t :: i == j
  }

  ghost predicate OnlyCallInPass(v: View, l: nat, pass: nat, t: nat, j: nat) {
    && j < |v.calls| && v.calls[j].l == l && v.calls[j].pass == pass && v.calls[j].tag == t
    && forall i | 0 <= i < |v.calls| && v.calls[i].l == l && v.calls[i].pass == pass && v.calls[i].tag == t :: i == j
  }

  /** The two lists of a Deferred never both call anything, not even half way through. */
  lemma NeverBoth(v: View, d: nat, i: nat, j: nat)
    requires Inv(v, {}) && d in v.states && i < |v.calls| && j < |v.calls|
    ensures !(v.calls[i].l == d && v.calls[j].l == d + 1)
    ensures v.calls[i].l == d ==> v.states[d] == Resolved
    ensures v.calls[i].l == d + 1 ==> v.states[d] == Rejected
  {
    DeferredIn(v, {}, d);
    ListIn(v, {}, d);
    ListIn(v, {}, d + 1);
    assert CallOk(v, v.calls[i]) && CallOk(v, v.calls[j]);
  }

  /** A list that fires once calls no entry twice. */
  lemma OnceEach(v: View, i: nat, j: nat)
    requires Inv(v, {}) && i < |v.calls| && j < |v.calls|
    ensures i < j && v.calls[i].l == v.calls[j].l && v.calls[i].l in v.lists && v.lists[v.calls[i].l].options.once ==>
      v.calls[i].tag != v.calls[j].tag
  {
    assert i < j && v.calls[i].l == v.calls[j].l ==> OnceTags(v, v.calls[i].l, v.calls[i].tag, v.calls[j].tag);
  }

  /** Once a Deferred is settled and at rest, every callback of the settled kind, however early or
      late it was added, has been called exactly once and with the settled arguments. */
  lemma SettledServesAll(v: View, d: nat, resolve: bool, t: nat) returns (j: nat)
    requires Inv(v, {}) && d in v.states && v.states[d] == SettledState(resolve)
    requires SettleList(d, resolve) in v.lists && SettleList(d, resolve) in v.hist
    requires !v.lists[SettleList(d, resolve)].firing && t in v.hist[SettleList(d, resolve)].added
    ensures OnlyCall(v, SettleList(d, resolve), t, j) && v.hist[SettleList(d, resolve)].delivered == [v.calls[j].data]
  {
    var l := SettleList(d, resolve);
    DeferredIn(v, {}, d);
    ListIn(v, {}, l);
    assert SettledOk(v, d, resolve) && t in v.hist[l].called && WasCalled(v.calls, l, t);
    j :| 0 <= j < |v.calls| && v.calls[j].l == l && v.calls[j].tag == t;
    forall i | 0 <= i < |v.calls| && v.calls[i].l == l && v.calls[i].tag == t ensures i == j {
      OnceEach(v, i, j);
      OnceEach(v, j, i);
    }
  }

  /** What a Deferred has settled on stays, whatever happens later. */
  lemma SettledForGood(v: View, w: View, d: nat, resolve: bool)
    requires Inv(v, {}) && Inv(w, {}) && Evolves(v, w) && d in v.states && v.states[d] == SettledState(resolve)
    ensures d in w.states && w.states[d] == SettledState(resolve)
    ensures forall j | 0 <= j < |w.calls| :: w.calls[j].l != SettleList(d, !resolve)
  {
    DeferredIn(w, {}, d);
    ListIn(w, {}, SettleList(d, !resolve));
    forall j | 0 <= j < |w.calls| ensures w.calls[j].l != SettleList(d, !resolve) {
      assert CallOk(w, w.calls[j]);
    }
  }

  /** The entry joined the list of the settled kind at `v`, early or late; `t` has settled. */
  lemma ServedOnce(v: View, t: View, w: View, d: nat, resolve: bool, e: Entry, data: Data) returns (j: nat)
    requires Inv(v, {}) && Inv(t, {}) && Inv(w, {}) && Evolves(v, w) && Evolves(t, w) && d in t.states
    requires SettleList(d, resolve) in v.hist && Named(v.hist[SettleList(d, resolve)], e)
    requires t.states[d] == SettledState(resolve)
    requires SettleList(d, resolve) in t.hist && t.hist[SettleList(d, resolve)].delivered == [data]
    requires SettleList(d, resolve) in w.lists && !w.lists[SettleList(d, resolve)].firing
    requires SettleList(d, resolve) in w.hist
    ensures Named(w.hist[SettleList(d, resolve)], e)
    ensures OnlyCall(w, SettleList(d, resolve), e.tag, j) && w.calls[j].data == data
  {
    var l := SettleList(d, resolve);
    assert ListEvolves(v.lists[l], v.hist[l], w.lists[l], w.hist[l]);
    assert ListEvolves(t.lists[l], t.hist[l], w.lists[l], w.hist[l]);
    ListIn(w, {}, l);
    SettledForGood(t, w, d, resolve);
    j := SettledServesAll(w, d, resolve, e.tag);
    assert w.hist[l].delivered[0] == t.hist[l].delivered[0];
  }

  /** A Deferred that is resolved calls each callback given to `done`, before or after, exactly once and
      with the arguments of `resolve`. Here `done` is called from `u` to `v`, `resolve` from `s` to `t`, and
      `w` is any later moment at which the list is not firing. */
  lemma DoneServes(u: View, v: View, s: View, t: View, w: View, d: nat, fns: seq<nat>, data: Data, i: nat)
    returns (j: nat)
    requires Inv(v, {}) && Inv(t, {}) && Inv(w, {}) && Evolves(v, w) && Evolves(t, w)
    requires d in u.states && u.states[d] != Rejected && Did(Done(d, fns), u, v) && i < |fns|
    requires d in s.states && s.states[d] == Pending && Did(Settle(d, true, data), s, t)
    requires d in w.lists && !w.lists[d].firing && d in w.hist
    ensures Named(w.hist[d], Entry(User(fns[i]), u.nextTag + i))
    ensures OnlyCall(w, d, u.nextTag + i, j) && w.calls[j].data == data
  {
    j := ServedOnce(v, t, w, d, true, Entry(User(fns[i]), u.nextTag + i), data);
  }

  /** The same for callbacks given to `fail`, and `reject`. */
  lemma FailServes(u: View, v: View, s: View, t: View, w: View, d: nat, fns: seq<nat>, data: Data, i: nat)
    returns (j: nat)
    requires Inv(v, {}) && Inv(t, {}) && Inv(w, {}) && Evolves(v, w) && Evolves(t, w)
    requires d in u.states && u.states[d] != Resolved && Did(Fail(d, fns), u, v) && i < |fns|
    requires d in s.states && s.states[d] == Pending && Did(Settle(d, false, data), s, t)
    requires d + 1 in w.lists && !w.lists[d + 1].firing && d + 1 in w.hist
    ensures Named(w.hist[d + 1], Entry(User(fns[i]), u.nextTag + i))
    ensures OnlyCall(w, d + 1, u.nextTag + i, j) && w.calls[j].data == data
  {
    j := ServedOnce(v, t, w, d, false, Entry(User(fns[i]), u.nextTag + i), data);
  }

  /** Callbacks given to `done` are never called when the Deferred is rejected, and those given to
      `fail` never when it is resolved. */
  lemma OtherKindIsSilent(s: View, t: View, w: View, d: nat, resolve: bool, data: Data)
    requires Inv(t, {}) && Inv(w, {}) && Evolves(t, w)
    requires d in s.states && s.states[d] == Pending && Did(Settle(d, resolve, data), s, t)
    ensures forall j | 0 <= j < |w.calls| :: w.calls[j].l != if resolve then d + 1 else d
  {
    SettledForGood(t, w, d, resolve);
  }

  /** In a finished pass each entry that took part was called exactly once, with the arguments of the
      pass, unless it had been removed before its turn; then it was not called, and is gone for good. */
  lemma PassServesAll(v: View, p: Pass, t: nat) returns (j: nat)
    requires Inv(v, {}) && p in v.passes && t in p.entered
    ensures t in p.ran <==> t !in p.dropped
    ensures t in p.ran ==> OnlyCallInPass(v, p.l, p.number, t, j) && v.calls[j].data == p.data
    ensures p.l in v.lists && p.l in v.hist
    ensures t in p.dropped ==>
      !CalledInPass(v, p.l, p.number, t) && !Listed(v.lists[p.l], t) && RemovedByForeign(v, p.l, t)
  {
    assert OnRecord(v, p);
    j := 0;
    assert t !in p.ran * p.dropped;
    if t in p.ran {
      j :| 0 <= j < |v.calls| && v.calls[j] == Call(p.l, p.number, t, p.data);
      forall i | 0 <= i < |v.calls| && v.calls[i].l == p.l && v.calls[i].pass == p.number && v.calls[i].tag == t
        ensures i == j
      {
        PassInOrder(v, i, j);
        PassInOrder(v, j, i);
      }
    }
  }

  ghost predicate CalledInPass(v: View, l: nat, pass: nat, t: nat) {
    exists i | 0 <= i < |v.calls| :: v.calls[i].l == l && v.calls[i].pass == pass && v.calls[i].tag == t
  }

  /** A list that nothing empties, disables, locks or stops has all its finished passes on record,
      whatever callbacks were added and removed, and whatever was fired, while they were running. */
  lemma EveryPassFinishes(v: View, l: nat, k: nat) returns (p: Pass)
    requires Inv(v, {}) && Safe(v, l) && l in v.hist && 1 <= k <= v.hist[l].pass
    requires v.lists[l].firing ==> k < v.hist[l].pass
    ensures p in v.passes && p.l == l && p.number == k && k <= |v.hist[l].fires|
    ensures p.data == v.hist[l].fires[k - 1].data
  {
    assert OneListOk(v, {}, l);
    assert HasPass(v.passes, l, k);
    var i :| 0 <= i < |v.passes| && v.passes[i].l == l && v.passes[i].number == k;
    p := v.passes[i];
    assert OnRecord(v, p);
  }

  /** In a list that nothing empties, disables, locks or stops, every entry that takes part in a pass
      is called in it, exactly once and with the arguments of the pass, if foreign code does not
      remove its callback from the list. */
  lemma KeptAreServed(v: View, l: nat, k: nat, t: nat) returns (p: Pass, j: nat)
    requires Inv(v, {}) && Safe(v, l) && l in v.hist && 1 <= k <= v.hist[l].pass
    requires v.lists[l].firing ==> k < v.hist[l].pass
    requires t in v.hist[l].names && IsKept(v.care, l, v.hist[l].names[t])
    ensures p in v.passes && p.l == l && p.number == k && k <= |v.hist[l].fires|
    ensures t in p.entered ==> OnlyCallInPass(v, l, k, t, j) && v.calls[j].data == v.hist[l].fires[k - 1].data
  {
    p := EveryPassFinishes(v, l, k);
    assert OnRecord(v, p);
    j := 0;
    if t in p.entered {
      assert t in p.dropped ==> RemovedByForeign(v, l, t);
      j := PassServesAll(v, p, t);
    }
  }

  /** Calls of one list come pass after pass, and within a pass in list order. */
  lemma PassInOrder(v: View, i: nat, j: nat)
    requires Inv(v, {}) && i < |v.calls| && j < |v.calls| && v.calls[i].l == v.calls[j].l
    ensures i < j ==> InTurn(v.calls[i], v.calls[j])
  {}

  /** Fire calls are delivered first come, first served. Every call of a callback carries the
      arguments of its pass; leaving out the passes that repeat the one before them for late
      callbacks, the passes have the arguments of the accepted fire calls, one each and in order. A
      list at rest, unless it was locked or disabled, has delivered all it ever accepted. */
  lemma FirstComeFirstServed(v: View, l: nat)
    requires Inv(v, {}) && l in v.lists && l in v.hist
    ensures |v.hist[l].fires| == v.hist[l].pass
    ensures Accepted(v.hist[l].fires) == v.hist[l].delivered <= v.hist[l].requested
    ensures forall k | 0 <= k < v.hist[l].pass && v.hist[l].fires[k].replay ::
      k > 0 && v.hist[l].fires[k].data == v.hist[l].fires[k - 1].data
    ensures forall j | 0 <= j < |v.calls| && v.calls[j].l == l ::
      1 <= v.calls[j].pass <= v.hist[l].pass && v.calls[j].data == v.hist[l].fires[v.calls[j].pass - 1].data
    ensures !v.lists[l].firing && v.lists[l].stack.Some? ==> v.hist[l].delivered == v.hist[l].requested
    ensures v.lists[l].firing && v.lists[l].stack.Some? ==>
      v.hist[l].requested == v.hist[l].delivered + v.lists[l].stack.value
  {
    ListIn(v, {}, l);
    forall j | 0 <= j < |v.calls| && v.calls[j].l == l
      ensures 1 <= v.calls[j].pass <= v.hist[l].pass && v.calls[j].data == v.hist[l].fires[v.calls[j].pass - 1].data
    {
      assert CallOk(v, v.calls[j]);
    }
  }

  /** No list is in the middle of a pass. */
  ghost predicate Quiet(v: View) {
    forall l {:trigger v.lists[l].firing} | l in v.lists :: !v.lists[l].firing
  }

  lemma QuietAgain(v: View, w: View)
    requires Quiet(v) && Evolves(v, w) && v.lists.Keys == v.hist.Keys
    ensures Quiet(w)
  {
    forall l | l in w.lists ensures !w.lists[l].firing {
      if l in v.lists { assert ListEvolves(v.lists[l], v.hist[l], w.lists[l], w.hist[l]); }
    }
  }

  /** The firing indices in the middle of a pass, while foreign code has the word, of a list that
      nothing empties, disables, locks or stops: `firingLength` is the length of the list; what stands
      before `firingIndex + 1` has run or is older than the pass, and what stands from there on has yet to
      run. */
  lemma IndicesAreRepaired(v: View, l: nat, k: nat)
    requires Inv(v, {}) && l in v.lists && l in v.hist && v.lists[l].firing
    requires Safe(v, l) || !v.hist[l].disturbed
    requires v.lists[l].list.Some? && k < |v.lists[l].list.value|
    ensures v.lists[l].firingLength == |v.lists[l].list.value| && -1 <= v.lists[l].firingIndex < v.lists[l].firingLength
    ensures var t := v.lists[l].list.value[k].tag;
      if k <= v.lists[l].firingIndex then t < v.hist[l].passFirst || t in v.hist[l].ran
      else t in v.hist[l].entered && t !in v.hist[l].ran
  {
    ListIn(v, {}, l);
    var c, h := v.lists[l], v.hist[l];
    if k > c.firingIndex {
      assert HasTag(c.list.value, c.firingIndex + 1, c.list.value[k].tag);
    }
  }
}
