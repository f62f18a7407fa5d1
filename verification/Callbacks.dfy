/**
 jQuery.Callbacks lists and Deferreds. Callbacks are foreign code: while one runs, it may make any
 finite number of calls, given by a script that is used up from the front.
 */
module Callbacks {
  import opened Wrappers
  import opened CallbackLists
  import opened CallbackViews
  import opened CallbackSteps

  datatype Action =
    | NewCallbacks(options: Options)
    | NewDeferred
    | AddTo(l: nat, fns: seq<nat>)
    | RemoveFrom(l: nat, fns: seq<nat>)
    | FireList(l: nat, data: Data)
    | EmptyList(l: nat)
    | Disable(l: nat)
    | Lock(l: nat)
    | Done(d: nat, fns: seq<nat>)
    | Fail(d: nat, fns: seq<nat>)
    | Progress(d: nat, fns: seq<nat>)
    | Settle(d: nat, resolve: bool, data: Data)
    | Notify(d: nat, data: Data)
    | Return(isFalse: bool)

  /** The action keeps to what is to be left alone. */
  ghost predicate Gentle(action: Action, care: Care) {
    match action
    case EmptyList(l) => l !in care.spared
    case Disable(l) => l !in care.spared
    case Lock(l) => l !in care.spared
    case RemoveFrom(l, fns) => forall n <- fns :: (l, n) !in care.kept
    case _ => true
  }

  ghost predicate Spares(script: seq<Action>, care: Care) {
    forall i | 0 <= i < |script| :: Gentle(script[i], care)
  }

  predicate Owned(states: map<nat, State>, l: nat) {
    l in states || (l >= 1 && l - 1 in states) || (l >= 2 && l - 2 in states)
  }

  function Users(fns: seq<nat>): seq<Fn> {
    seq(|fns|, i requires 0 <= i < |fns| => User(fns[i]))
  }

  lemma ListIn(v: View, out: set<nat>, l: nat)
    requires Inv(v, out) && l in v.lists
    ensures l in v.hist && l < v.nextId && BaseOk(v.lists[l], v.hist[l], v.nextTag)
    ensures l !in out ==> ListOk(v.lists[l], v.hist[l], v.nextTag)
    ensures RanWereCalled(v, l) && PlainOk(v, l) && FiresOk(v.lists[l], v.hist[l]) && SafeOk(v, l)
    ensures NamesOk(v.lists[l], v.hist[l]) && forall t <- v.hist[l].dropped :: RemovedByForeign(v, l, t)
  {
    assert OneListOk(v, out, l);
  }

  lemma DeferredIn(v: View, out: set<nat>, d: nat)
    requires Inv(v, out) && d in v.states
    ensures HasLists(v, d) && (d !in out && d + 1 !in out ==> DeferredOk(v, d))
    ensures d + 1 !in v.states && d + 2 !in v.states && (d >= 1 ==> d - 1 !in v.states)
    ensures (d >= 2 ==> d - 2 !in v.states)
  {
    assert OneDeferredOk(v, out, d);
  }

  lemma EvolvesNothing(v: View)
    requires v.lists.Keys == v.hist.Keys
    ensures Evolves(v, v)
  {}

  lemma EvolvesTransitive(a: View, b: View, c: View)
    requires Evolves(a, b) && Evolves(b, c) && a.lists.Keys == a.hist.Keys && b.lists.Keys == b.hist.Keys
    ensures Evolves(a, c)
  {
    forall l | l in a.lists ensures ListEvolves(a.lists[l], a.hist[l], c.lists[l], c.hist[l]) {
      assert ListEvolves(a.lists[l], a.hist[l], b.lists[l], b.hist[l]);
      assert ListEvolves(b.lists[l], b.hist[l], c.lists[l], c.hist[l]);
    }
    forall l | l in c.lists && l !in a.lists ensures !c.lists[l].firing {
      if l in b.lists {
        assert ListEvolves(b.lists[l], b.hist[l], c.lists[l], c.hist[l]);
      }
    }
  }

  lemma EvolvesButTransitive(a: View, b: View, c: View, self: nat)
    requires EvolvesBut(a, b, self) && (EvolvesBut(b, c, self) || Evolves(b, c)) && self in a.lists
    requires a.lists.Keys == a.hist.Keys && b.lists.Keys == b.hist.Keys
    ensures EvolvesBut(a, c, self)
  {
    assert Evolves(b, c) ==> ListEvolves(b.lists[self], b.hist[self], c.lists[self], c.hist[self]);
    forall l | l in a.lists && l != self ensures ListEvolves(a.lists[l], a.hist[l], c.lists[l], c.hist[l]) {
      assert ListEvolves(a.lists[l], a.hist[l], b.lists[l], b.hist[l]);
      assert ListEvolves(b.lists[l], b.hist[l], c.lists[l], c.hist[l]);
    }
    forall l | l in c.lists && l !in a.lists ensures !c.lists[l].firing {
      if l in b.lists {
        assert ListEvolves(b.lists[l], b.hist[l], c.lists[l], c.hist[l]);
      }
    }
  }

  /** A fire call that is over is a call like any other. */
  lemma EvolvesAgain(a: View, b: View, self: nat)
    requires EvolvesBut(a, b, self) && self in a.lists && a.lists.Keys == a.hist.Keys
    requires !a.lists[self].firing && !b.lists[self].firing
    ensures Evolves(a, b)
  {
    forall l | l in a.lists ensures ListEvolves(a.lists[l], a.hist[l], b.lists[l], b.hist[l]) {}
  }

  lemma EvolvesForgets(a: View, b: View, self: nat)
    requires Evolves(a, b) && a.lists.Keys == a.hist.Keys
    ensures EvolvesBut(a, b, self)
  {
    assert self in a.lists ==> ListEvolves(a.lists[self], a.hist[self], b.lists[self], b.hist[self]);
  }

  /** One list changes, and its calls and passes are logged. */
  lemma EvolvesButPut(a: View, b: View, self: nat)
    requires self in a.lists && a.lists.Keys == a.hist.Keys && self in b.lists && self in b.hist
    requires b.lists == a.lists[self := b.lists[self]] && b.hist == a.hist[self := b.hist[self]] && RecordGrew(a, b)
    requires ListGrew(a.lists[self], a.hist[self], b.lists[self], b.hist[self])
    ensures EvolvesBut(a, b, self)
  {
    forall l | l in a.lists && l != self ensures ListEvolves(a.lists[l], a.hist[l], b.lists[l], b.hist[l]) {}
  }

  lemma EvolvesPut(v: View, l: nat, c: CbList, h: History, nextTag: nat)
    requires l in v.lists && v.lists.Keys == v.hist.Keys && v.nextTag <= nextTag
    requires ListEvolves(v.lists[l], v.hist[l], c, h)
    ensures Evolves(v, PutList(v, l, c, h).(nextTag := nextTag))
  {
    var w := PutList(v, l, c, h).(nextTag := nextTag);
    forall x | x in v.lists ensures ListEvolves(v.lists[x], v.hist[x], w.lists[x], w.hist[x]) {}
  }

  /** Adding to the list of a Deferred. */
  lemma PushAdding(v: View, d: nat, resolve: bool, fn: Fn)
    requires d in v.states && Adding(v, d) && fn.User? && v.lists[SettleList(d, resolve)].list.Some?
    ensures var l := SettleList(d, resolve);
      Adding(PutList(v, l, Pushed(v.lists[l], Entry(fn, v.nextTag)),
          PushedHistory(v.lists[l], v.hist[l], Entry(fn, v.nextTag))).(nextTag := v.nextTag + 1), d)
  {
    var l := SettleList(d, resolve);
    var c, h, e := v.lists[l], v.hist[l], Entry(fn, v.nextTag);
    var w := PutList(v, l, Pushed(c, e), PushedHistory(c, h, e)).(nextTag := v.nextTag + 1);
    var s, r := c.list.value, Pushed(c, e).list.value;
    forall from: nat, t: nat | from <= |s| ensures HasTag(r, from, t) <==> HasTag(s, from, t) || t == e.tag {
      PushedTags(s, e, from, t);
    }
    assert HasLists(w, d);
    var o := SettleList(d, !resolve);
    assert w.lists[o] == v.lists[o] && w.hist[o] == v.hist[o] && w.lists[d + 2] == v.lists[d + 2];
    assert forall k | 0 <= k < |r| :: r[k] == if k < |s| then s[k] else e;
  }

  /** Where a fire call comes from: `fireWith`, the queue of earlier calls, or `add` after a fire. */
  datatype Source = Direct | Queued | Replay

  /** The list may start a pass with these arguments. */
  ghost predicate CanFire(v: View, l: nat, data: Data, source: Source)
    requires l in v.lists && l in v.hist
  {
    var c, h := v.lists[l], v.hist[l];
    && !c.firing && c.list.Some? && 0 <= c.firingStart <= |c.list.value|
    && (c.options.once ==> Uncalled(c.list.value, h, 0))
    && match source
       case Direct => c.firingStart == 0 && (if c.stack.Some? then c.stack.value == [] else !c.fired)
       case Queued => c.firingStart == 0 && c.stack.Some? && c.stack.value != [] && c.stack.value[0] == data
       case Replay => c.fired && c.memory == Some(data) && (c.stack.Some? ==> c.stack.value == [])
  }

  /** A done or fail list fires directly when nothing is settled, and again only for late callbacks. */
  ghost predicate SettleCanFire(v: View, l: nat, source: Source) {
    forall d, resolve {:trigger SettleList(d, resolve)} | d in v.states && SettleList(d, resolve) == l ::
      && Adding(v, d)
      && match source
         case Direct => v.states[d] == Pending
         case Queued => false
         case Replay => v.states[d] == SettledState(resolve) && v.lists[l].firingStart == 0
  }

  ghost predicate SettleLooping(v: View, l: nat) {
    forall d, resolve {:trigger SettleList(d, resolve)} | d in v.states && SettleList(d, resolve) == l ::
      HasLists(v, d) && SettleLoop(v, d, resolve)
  }

  /** The head of the firing loop of list `l`. */
  ghost predicate Looping(v: View, l: nat, data: Data) {
    && Inv(v, {l}) && l in v.lists && v.lists[l].firing && v.hist[l].passData == data
    && LoopOk(v.lists[l], v.hist[l]) && SettleLooping(v, l)
  }

  ghost function BegunList(c: CbList, data: Data, source: Source): CbList
    requires c.list.Some? && (source == Queued ==> c.stack.Some? && c.stack.value != [])
  {
    BeginPass(if source == Queued then c.(stack := Some(c.stack.value[1..])) else c, data)
  }

  ghost function BegunHistory(c: CbList, h: History, data: Data, source: Source, nextTag: nat): History
    requires c.list.Some? && 0 <= c.firingStart <= |c.list.value|
  {
    BeginHistory(c, h.(requested := if source == Direct then h.requested + [data] else h.requested,
                       delivered := if source == Replay then h.delivered else h.delivered + [data]), data,
                       source == Replay, nextTag)
  }

  lemma BegunListOk(v: View, l: nat, data: Data, source: Source)
    requires Inv(v, {l}) && l in v.lists && l in v.hist && CanFire(v, l, data, source)
    ensures var c, h := BegunList(v.lists[l], data, source), BegunHistory(v.lists[l], v.hist[l], data, source,
                                                                      v.nextTag);
      BaseOk(c, h, v.nextTag) && LoopOk(c, h)
  {
    var c, h := v.lists[l], v.hist[l];
    ListIn(v, {l}, l);
    var c1 := if source == Queued then c.(stack := Some(c.stack.value[1..])) else c;
    var h1 := h.(requested := if source == Direct then h.requested + [data] else h.requested,
                 delivered := if source == Replay then h.delivered else h.delivered + [data]);
    BegunBase(v, l, data, source);
    BeginOk(c1, h1, data, source == Replay, v.nextTag);
  }

  lemma BegunBase(v: View, l: nat, data: Data, source: Source)
    requires l in v.lists && l in v.hist && CanFire(v, l, data, source) && BaseOk(v.lists[l], v.hist[l], v.nextTag)
    ensures var c, h := v.lists[l], v.hist[l];
      var c1 := if source == Queued then c.(stack := Some(c.stack.value[1..])) else c;
      var h1 := h.(requested := if source == Direct then h.requested + [data] else h.requested,
                   delivered := if source == Replay then h.delivered else h.delivered + [data]);
      BaseOk(c1.(fired := true), h1.(pass := h1.pass + 1), v.nextTag)
  {
    var c, h := v.lists[l], v.hist[l];
    if source == Queued {
      assert h.delivered + c.stack.value == (h.delivered + [data]) + c.stack.value[1..];
    }
  }

  lemma BegunFiresOk(v: View, l: nat, data: Data, source: Source)
    requires l in v.lists && l in v.hist && CanFire(v, l, data, source) && FiresOk(v.lists[l], v.hist[l])
    ensures FiresOk(BegunList(v.lists[l], data, source), BegunHistory(v.lists[l], v.hist[l], data, source, v.nextTag))
  {
    BeginFires(v.lists[l], v.hist[l], BegunList(v.lists[l], data, source),
               BegunHistory(v.lists[l], v.hist[l], data, source, v.nextTag), data, source == Replay);
  }

  /** A pass begins: earlier calls belong to earlier passes. */
  lemma BegunInv(v: View, l: nat, c: CbList, h: History)
    requires Inv(v, {l}) && l in v.lists && BaseOk(c, h, v.nextTag) && FiresOk(c, h) && v.hist[l].fires <= h.fires
    requires h.names == v.hist[l].names && h.added == v.hist[l].added && h.dropped == {} && !h.disturbed
    requires c.options == v.lists[l].options && c.list == v.lists[l].list
    requires ProgressKept(v, l, c)
    requires h.pass == v.hist[l].pass + 1 && h.ran == {} && h.called == v.hist[l].called && h.broken == v.hist[l].broken
    requires !v.lists[l].firing && c.firing
    ensures Inv(PutList(v, l, c, h), {l})
  {
    var w := PutList(v, l, c, h);
    BegunLists(v, l, c, h);
    assert w == PutList(v, l, c, h).(nextTag := v.nextTag);
    PutKeepsDeferreds(v, {l}, l, c, h, v.nextTag);
    NewPassCalls(v, w, l);
    forall p | p in w.passes ensures OnRecord(w, p) {
      assert OnRecord(v, p);
    }
  }

  lemma BegunLists(v: View, l: nat, c: CbList, h: History)
    requires Inv(v, {l}) && l in v.lists && BaseOk(c, h, v.nextTag) && FiresOk(c, h)
    requires h.names == v.hist[l].names && h.added == v.hist[l].added && h.dropped == {} && !h.disturbed
    requires c.options == v.lists[l].options && c.list == v.lists[l].list
    requires h.pass == v.hist[l].pass + 1 && h.ran == {} && h.called == v.hist[l].called && h.broken == v.hist[l].broken
    requires !v.lists[l].firing && c.firing
    ensures ListsOk(PutList(v, l, c, h), {l})
  {
    var w := PutList(v, l, c, h);
    forall x | x in w.lists && x != l ensures OneListOk(w, {l}, x) {
      assert OneListOk(v, {l}, x);
      SameList(v, w, {l}, x);
    }
    assert OneListOk(w, {l}, l) by { assert OneListOk(v, {l}, l); }
  }

  lemma NewPassCalls(v: View, w: View, l: nat)
    requires CallsOk(v) && l in v.lists && l in v.hist && l in w.lists && l in w.hist
    requires w == PutList(v, l, w.lists[l], w.hist[l])
    requires w.lists[l].options == v.lists[l].options
    requires w.hist[l].pass == v.hist[l].pass + 1 && w.hist[l].called == v.hist[l].called
    requires v.hist[l].fires <= w.hist[l].fires
    ensures CallsOk(w)
  {
    forall j | 0 <= j < |w.calls| ensures CallOk(w, w.calls[j]) {
      assert CallOk(v, v.calls[j]);
    }
    forall i, j | 0 <= i < j < |w.calls| && w.calls[i].l == w.calls[j].l
      ensures OnceTags(w, w.calls[i].l, w.calls[i].tag, w.calls[j].tag)
    {
      assert OnceTags(v, v.calls[i].l, v.calls[i].tag, v.calls[j].tag);
    }
  }

  lemma BegunSettle(v: View, l: nat, data: Data, source: Source)
    requires Inv(v, {l}) && l in v.lists && l in v.hist && CanFire(v, l, data, source) && SettleCanFire(v, l, source)
    ensures SettleLooping(PutList(v, l, BegunList(v.lists[l], data, source),
        BegunHistory(v.lists[l], v.hist[l], data, source, v.nextTag)), l)
  {
    var w := PutList(v, l, BegunList(v.lists[l], data, source),
                     BegunHistory(v.lists[l], v.hist[l], data, source, v.nextTag));
    ListIn(v, {l}, l);
    forall d, resolve {:trigger SettleList(d, resolve)} | d in w.states && SettleList(d, resolve) == l
      ensures HasLists(w, d) && SettleLoop(w, d, resolve)
    {
      assert Adding(v, d);
      forall j | 0 <= j < |v.calls| && v.calls[j].l == l ensures source == Replay && v.calls[j].data == data {
        assert CallOk(v, v.calls[j]);
      }
      BegunServing(v, d, resolve, data, source);
    }
  }

  /** A pass of a done or fail list begins: the first one, or one for late callbacks. */
  lemma BegunServing(v: View, d: nat, resolve: bool, data: Data, source: Source)
    requires d in v.states && Adding(v, d) && CanFire(v, SettleList(d, resolve), data, source)
    requires BaseOk(v.lists[SettleList(d, resolve)], v.hist[SettleList(d, resolve)], v.nextTag)
    requires if source == Direct then v.states[d] == Pending
             else
               && source == Replay && v.states[d] == SettledState(resolve)
               && v.lists[SettleList(d, resolve)].firingStart == 0
    requires forall j | 0 <= j < |v.calls| && v.calls[j].l == SettleList(d, resolve) ::
      source == Replay && v.calls[j].data == data
    ensures var l := SettleList(d, resolve);
      var w := PutList(v, l, BegunList(v.lists[l], data, source),
                       BegunHistory(v.lists[l], v.hist[l], data, source, v.nextTag));
      HasLists(w, d) && SettleLoop(w, d, resolve)
  {
    var l, o := SettleList(d, resolve), SettleList(d, !resolve);
    var c, h := BegunList(v.lists[l], data, source), BegunHistory(v.lists[l], v.hist[l], data, source, v.nextTag);
    var w := PutList(v, l, c, h);
    assert HasLists(w, d);
    assert w.lists[o] == v.lists[o] && w.hist[o] == v.hist[o] && w.lists[d + 2] == v.lists[d + 2];
    assert Serving(w, d, resolve, c.firingIndex);
  }
}
