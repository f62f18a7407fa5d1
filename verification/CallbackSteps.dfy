/**
 Replacing one callback list leaves all others, and the Deferreds built from them, right.

 A Deferred looks at three lists, and a list belongs to at most one Deferred. So a change of one list
 concerns that Deferred alone, and of the log only the calls of that list. The lemmas here say so once,
 for any new state of the list that is right by itself; the ones about single operations then have to
 show the latter only, and for a list that belongs to a Deferred what is asked of its three lists
 together.
 */
module CallbackSteps {
  import opened Wrappers
  import opened CallbackLists
  import opened CallbackViews

  ghost function PutList(v: View, l: nat, c: CbList, h: History): View {
    v.(lists := v.lists[l := c], hist := v.hist[l := h])
  }

  /** The part of a history that calls are checked against. */
  ghost predicate SameCalls(h: History, h': History) {
    && h'.pass == h.pass && h'.passData == h.passData && h'.ran == h.ran && h'.last == h.last && h'.called == h.called
    && h'.fires == h.fires
  }

  ghost predicate SameRun(h: History, h': History) {
    SameCalls(h, h') && h'.broken == h.broken && h'.delivered == h.delivered
  }

  /** Callbacks keep their numbers, and only such are dropped as foreign code may remove. */
  ghost predicate NamesKept(v: View, l: nat, c: CbList, h: History)
    requires l in v.hist
  {
    && NamesOk(c, h) && NamesGrew(v.hist[l], h)
    && forall t <- h.dropped :: t in h.names && !IsKept(v.care, l, h.names[t])
  }

  lemma OtherDeferred(v: View, l: nat, c: CbList, h: History, nextTag: nat, d: nat)
    requires d in v.states && l != d && l != d + 1
    requires l == d + 2 && l in v.lists ==> ProgressKept(v, l, c) && c.options == v.lists[l].options
    requires DeferredOk(v, d)
    ensures DeferredOk(PutList(v, l, c, h).(nextTag := nextTag), d)
  {
    var w := PutList(v, l, c, h).(nextTag := nextTag);
    assert HasLists(w, d);
    assert w.lists[d] == v.lists[d] && w.lists[d + 1] == v.lists[d + 1];
    assert w.hist[d] == v.hist[d] && w.hist[d + 1] == v.hist[d + 1];
  }

  /** A list stays right while others change, and calls and passes are logged. */
  lemma SameList(v: View, w: View, out: set<nat>, x: nat)
    requires x in v.lists && x in v.hist && OneListOk(v, out, x)
    requires x in w.lists && x in w.hist && w.lists[x] == v.lists[x] && w.hist[x] == v.hist[x]
    requires v.calls <= w.calls && v.passes <= w.passes && v.nextTag <= w.nextTag && v.nextId <= w.nextId
    requires w.care == v.care
    requires IsSettleList(w, x) == IsSettleList(v, x)
    ensures OneListOk(w, out, x)
  {
    StillCalled(v, w, x);
    forall k | 1 <= k <= w.hist[x].pass
      ensures HasPass(w.passes, x, k) || k in w.hist[x].broken || (k == w.hist[x].pass && w.lists[x].firing)
    {
      if HasPass(v.passes, x, k) { StillHasPass(v.passes, w.passes, x, k); }
    }
  }

  lemma StillCalled(v: View, w: View, x: nat)
    requires x in v.hist && x in w.hist && w.hist[x] == v.hist[x] && v.calls <= w.calls && RanWereCalled(v, x)
    ensures RanWereCalled(w, x)
  {
    forall t | t in w.hist[x].called ensures WasCalled(w.calls, x, t) {
      var j :| 0 <= j < |v.calls| && v.calls[j].l == x && v.calls[j].tag == t;
      assert w.calls[j] == v.calls[j];
    }
  }

  lemma StillHasPass(a: seq<Pass>, b: seq<Pass>, l: nat, k: nat)
    requires a <= b && HasPass(a, l, k)
    ensures HasPass(b, l, k)
  {
    var i :| 0 <= i < |a| && a[i].l == l && a[i].number == k;
    assert b[i] == a[i];
  }

  /** One list changes in place. */
  lemma PutOk(v: View, out: set<nat>, l: nat, c: CbList, h: History, nextTag: nat)
    requires Inv(v, out) && l in v.lists && v.nextTag <= nextTag
    requires BaseOk(c, h, nextTag) && (l in out || ListOk(c, h, nextTag))
    requires SameRun(v.hist[l], h) && c.options == v.lists[l].options && c.firing == v.lists[l].firing
    requires FiresOk(c, h) && NoneBack(v.lists[l], c, v.nextTag) && NamesKept(v, l, c, h)
    requires Safe(v, l) ==> (c.firing ==> !h.disturbed) && Remembers(c)
    requires !IsSettleList(v, l) && c.list.Some? ==> AllUser(c.list.value, 0)
    requires IsSettleList(v, l) ==> forall d <- v.states | (l == d || l == d + 1) && d !in out && d + 1 !in out ::
      DeferredOk(PutList(v, l, c, h).(nextTag := nextTag), d)
    requires ProgressKept(v, l, c)
    ensures Inv(PutList(v, l, c, h).(nextTag := nextTag), out)
  {
    PutKeepsLists(v, out, l, c, h, nextTag);
    PutKeepsDeferreds(v, out, l, c, h, nextTag);
    CallsKept(v, PutList(v, l, c, h).(nextTag := nextTag));
    PassesOnRecord(v, out, l, c, h, nextTag);
  }

  /** Finished passes stay on record while lists gain new entries, and calls come from running passes. */
  lemma StillOnRecord(v: View, out: set<nat>, w: View)
    requires Inv(v, out) && v.lists.Keys <= w.lists.Keys && v.hist.Keys <= w.hist.Keys && v.nextTag <= w.nextTag
    requires w.passes == v.passes && w.care == v.care
    requires forall l <- v.lists :: KeptFor(v, w, l)
    requires v.calls <= w.calls && forall j | |v.calls| <= j < |w.calls| :: InRunningPass(v, w.calls[j])
    ensures forall p {:trigger OnRecord(w, p)} | p in w.passes :: OnRecord(w, p)
  {
    forall p | p in w.passes ensures OnRecord(w, p) {
      assert OnRecord(v, p) && KeptFor(v, w, p.l);
      forall j | 0 <= j < |w.calls| && w.calls[j].l == p.l && w.calls[j].pass == p.number
        ensures w.calls[j].tag in p.ran
      {
        assert j < |v.calls| && w.calls[j] == v.calls[j];
      }
    }
  }

  ghost predicate KeptFor(v: View, w: View, l: nat)
    requires l in v.lists && l in v.hist && l in w.lists && l in w.hist
  {
    && w.lists[l].firing == v.lists[l].firing && w.hist[l].pass == v.hist[l].pass && w.hist[l].fires == v.hist[l].fires
    && NamesGrew(v.hist[l], w.hist[l])
    && NoneBack(v.lists[l], w.lists[l], v.nextTag)
  }

  ghost predicate InRunningPass(v: View, call: Call) {
    call.l in v.lists && call.l in v.hist && v.lists[call.l].firing && call.pass == v.hist[call.l].pass
  }

  /** What was dropped stays dropped, since entries come with new numbers. */
  lemma PassesOnRecord(v: View, out: set<nat>, l: nat, c: CbList, h: History, nextTag: nat)
    requires Inv(v, out) && l in v.lists && v.nextTag <= nextTag && NoneBack(v.lists[l], c, v.nextTag)
    requires v.hist[l].pass == h.pass && v.hist[l].fires == h.fires && NamesGrew(v.hist[l], h)
    requires c.firing == v.lists[l].firing
    ensures var w := PutList(v, l, c, h).(nextTag := nextTag);
      forall p {:trigger OnRecord(w, p)} | p in w.passes :: OnRecord(w, p)
  {
    StillOnRecord(v, out, PutList(v, l, c, h).(nextTag := nextTag));
  }

  lemma PutKeepsLists(v: View, out: set<nat>, l: nat, c: CbList, h: History, nextTag: nat)
    requires Inv(v, out) && l in v.lists && v.nextTag <= nextTag
    requires BaseOk(c, h, nextTag) && (l in out || ListOk(c, h, nextTag))
    requires SameRun(v.hist[l], h) && c.options == v.lists[l].options && c.firing == v.lists[l].firing
    requires FiresOk(c, h) && (Safe(v, l) ==> (c.firing ==> !h.disturbed) && Remembers(c)) && NamesKept(v, l, c, h)
    requires !IsSettleList(v, l) && c.list.Some? ==> AllUser(c.list.value, 0)
    ensures ListsOk(PutList(v, l, c, h).(nextTag := nextTag), out)
  {
    var w := PutList(v, l, c, h).(nextTag := nextTag);
    forall x | x in w.lists && x != l ensures OneListOk(w, out, x) {
      assert OneListOk(v, out, x);
      SameList(v, w, out, x);
    }
    assert OneListOk(w, out, l) by { assert OneListOk(v, out, l); }
  }

  lemma PutKeepsDeferreds(v: View, out: set<nat>, l: nat, c: CbList, h: History, nextTag: nat)
    requires Inv(v, out) && l in v.lists
    requires c.options == v.lists[l].options
    requires ProgressKept(v, l, c)
    requires IsSettleList(v, l) ==> forall d <- v.states | (l == d || l == d + 1) && d !in out && d + 1 !in out ::
      DeferredOk(PutList(v, l, c, h).(nextTag := nextTag), d)
    ensures DeferredsOk(PutList(v, l, c, h).(nextTag := nextTag), out)
  {
    var w := PutList(v, l, c, h).(nextTag := nextTag);
    forall d | d in w.states ensures OneDeferredOk(w, out, d) {
      assert OneDeferredOk(v, out, d);
      if d !in out && d + 1 !in out && l != d && l != d + 1 {
        OtherDeferred(v, l, c, h, nextTag, d);
      }
    }
  }

  lemma CallsKept(v: View, w: View)
    requires CallsOk(v) && w.calls == v.calls && v.lists.Keys <= w.lists.Keys && v.hist.Keys <= w.hist.Keys
    requires v.lists.Keys == v.hist.Keys
    requires forall l <- v.lists :: w.lists[l].options == v.lists[l].options && SameCalls(v.hist[l], w.hist[l])
    ensures CallsOk(w)
  {
    forall j | 0 <= j < |w.calls| ensures CallOk(w, w.calls[j]) {
      assert CallOk(v, v.calls[j]);
    }
    forall i, j | 0 <= i < j < |w.calls| && w.calls[i].l == w.calls[j].l
      ensures OnceTags(w, w.calls[i].l, w.calls[i].tag, w.calls[j].tag)
    {
      assert OnceTags(v, v.calls[i].l, v.calls[i].tag, v.calls[j].tag);
      assert CallOk(v, v.calls[i]);
    }
  }
}
