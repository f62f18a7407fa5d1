/**
 jQuery.Callbacks as values: one list with its firing indices, and what must be true of it whenever
 one of its callbacks, or any other foreign code, can call into it.
 */
module CallbackLists {
  import opened Wrappers

  datatype Value = Undefined | Plain(n: int) | Array(items: seq<Value>)

  /** The arguments of a fire call. */
  type Data = seq<Value>

  /** A callback: foreign code, or one of the functions that Deferred puts first in its lists. */
  datatype Fn =
    | User(n: nat)
    | SetState(d: nat, resolved: bool)
    | DisableList(l: nat)
    | LockList(l: nat)

  /** An occurrence of a callback in a list. Every occurrence has its own number. */
  datatype Entry = Entry(fn: Fn, tag: nat)

  datatype Options = Options(once: bool, memory: bool, unique: bool, stopOnFalse: bool)

  datatype CbList = CbList(
    options: Options,
    list: Option<seq<Entry>>,
    stack: Option<seq<Data>>,
    memory: Option<Data>,
    fired: bool,
    firing: bool,
    firingLength: int,
    firingIndex: int,
    firingStart: int)

  /** The arguments of one pass, and whether it repeats those of the pass before for late callbacks. */
  datatype Firing = Firing(data: Data, replay: bool)

  /** What has happened to a list: its current pass, the fire calls it has accepted, and its passes. */
  datatype History = History(
    passData: Data,
    passFirst: nat,
    pass: nat,
    last: int,
    entered: set<nat>,
    ran: set<nat>,
    dropped: set<nat>,
    disturbed: bool,
    broken: set<nat>,
    requested: seq<Data>,
    delivered: seq<Data>,
    added: set<nat>,
    called: set<nat>,
    fires: seq<Firing>,
    names: map<nat, Fn>)

  function NewList(options: Options): CbList {
    CbList(options, Some([]), if options.once then None else Some([]), None, false, false, 0, 0, 0)
  }

  ghost function NewHistory(): History {
    History([], 0, 0, -1, {}, {}, {}, false, {}, [], [], {}, {}, [], map[])
  }

  /** The history knows the callback of each entry that was ever added. */
  ghost predicate NamesOk(c: CbList, h: History) {
    && h.names.Keys == h.added
    && (c.list.Some? ==> forall k | 0 <= k < |c.list.value| :: Named(h, c.list.value[k]))
  }

  ghost predicate Named(h: History, e: Entry) {
    e.tag in h.names && h.names[e.tag] == e.fn
  }

  /** The arguments of the passes that are not repetitions, in order. */
  ghost function Accepted(fires: seq<Firing>): seq<Data> {
    if fires == [] then []
    else
      var last := fires[|fires| - 1];
      Accepted(fires[..|fires| - 1]) + if last.replay then [] else [last.data]
  }

  /** The passes deliver the accepted fire calls, one each and in order; the others repeat the pass
      before them. What is remembered is the arguments of the last pass. */
  ghost predicate FiresOk(c: CbList, h: History) {
    && |h.fires| == h.pass && h.delivered == Accepted(h.fires)
    && (h.pass > 0 ==> h.fires[h.pass - 1].data == h.passData)
    && (forall k | 0 <= k < |h.fires| && h.fires[k].replay :: k > 0 && h.fires[k].data == h.fires[k - 1].data)
    && (c.memory.Some? ==> c.options.memory && h.pass > 0 && c.memory.value == h.passData)
    && (c.firing && !h.disturbed && c.options.memory ==> c.memory.Some?)
    && (c.firing ==> h.pass > 0)
    && forall k <- h.broken :: k <= h.pass
  }

  /** An occurrence with this number stands in the list, at `from` or later. */
  ghost predicate HasTag(s: seq<Entry>, from: nat, t: nat) {
    exists k | from <= k < |s| :: s[k].tag == t
  }

  ghost predicate Ascending(s: seq<Entry>) {
    forall i, j | 0 <= i < j < |s| :: s[i].tag < s[j].tag
  }

  /** In a pass that nothing has disturbed: of the entries that have entered it, those before
      `next` have run, or had no part in it; those from `next` on have not; and each one that is
      gone has either run or been removed before its turn. */
  ghost predicate Accounts(s: seq<Entry>, h: History, next: nat) {
    && (forall t: nat :: t in h.entered <==> t in h.ran || t in h.dropped || HasTag(s, next, t))
    && (forall t <- h.ran :: h.passFirst <= t <= h.last)
    && (forall t <- h.dropped :: t !in h.ran && !HasTag(s, 0, t))
    && (forall k | 0 <= k < |s| ::
          if k < next then s[k].tag < h.passFirst || s[k].tag in h.ran
          else h.passFirst <= s[k].tag && h.last < s[k].tag)
  }

  /** The entries from `from` on have never been called. */
  ghost predicate Uncalled(s: seq<Entry>, h: History, from: int) {
    forall k | 0 <= k < |s| && from <= k :: s[k].tag !in h.called
  }

  /** The entries from `from` on are newer than the one that ran last. */
  ghost predicate AfterLast(s: seq<Entry>, h: History, from: int) {
    forall k | 0 <= k < |s| && from <= k :: h.last < s[k].tag
  }

  /** A list whose callbacks may be running. */
  ghost predicate FiringOk(c: CbList, h: History) {
    -1 <= c.firingIndex && (c.list.Some? ==>
      && c.firingLength == |c.list.value|
      && (c.options.once ==> Uncalled(c.list.value, h, c.firingIndex + 1))
      && AfterLast(c.list.value, h, c.firingIndex + 1)
      && (!h.disturbed ==> c.firingIndex < |c.list.value| && Accounts(c.list.value, h, c.firingIndex + 1)))
  }

  /** At the head of the firing loop: the entry at `firingIndex` has not run yet. */
  ghost predicate LoopOk(c: CbList, h: History) {
    0 <= c.firingIndex && (c.list.Some? ==>
      && c.firingLength == |c.list.value|
      && (c.options.once ==> Uncalled(c.list.value, h, c.firingIndex))
      && AfterLast(c.list.value, h, c.firingIndex)
      && (!h.disturbed ==> c.firingIndex <= |c.list.value| && Accounts(c.list.value, h, c.firingIndex)))
  }

  ghost predicate IdleOk(c: CbList, h: History) {
    && c.firingStart == 0 && (c.stack.Some? ==> c.stack.value == [])
    && (c.options.once && c.list.Some? ==> Uncalled(c.list.value, h, 0))
  }

  /** What holds of a list at any time, in the middle of the firing loop too. */
  ghost predicate BaseOk(c: CbList, h: History, nextTag: nat) {
    && (c.list.Some? ==> Ascending(c.list.value) && forall k | 0 <= k < |c.list.value| ::
          c.list.value[k].tag < nextTag && c.list.value[k].tag in h.added)
    && (forall t <- h.added :: t < nextTag)
    && h.called <= h.added && h.ran <= h.called && h.dropped <= h.added && h.last < nextTag && h.passFirst <= nextTag
    && (c.firing ==> c.fired && c.firingStart == 0 && (c.list.None? ==> h.disturbed))
    && (c.stack.Some? ==> h.requested == h.delivered + c.stack.value)
    && h.delivered <= h.requested
    && (c.fired <==> h.delivered != [])
    && (if c.fired then h.pass >= 1 else h.pass == 0 && h.requested == [] && h.called == {} && c.memory.None?)
    && (c.options.once ==> c.stack.None?)
    && (c.list.None? ==> c.stack.None? && c.memory.None?)
  }

  ghost predicate ListOk(c: CbList, h: History, nextTag: nat) {
    BaseOk(c, h, nextTag) && if c.firing then FiringOk(c, h) else IdleOk(c, h)
  }

  ghost function Removed(s: seq<Entry>, i: nat): seq<Entry>
    requires i < |s|
  {
    s[..i] + s[i + 1..]
  }

  /** `list.splice(index, 1)` with the repair of the firing indices. */
  function RemoveAt(c: CbList, index: nat): CbList
    requires c.list.Some? && index < |c.list.value|
  {
    var s := c.list.value[..index] + c.list.value[index + 1..];
    if !c.firing then c.(list := Some(s))
    else c.(list := Some(s),
            firingLength := if index <= c.firingLength then c.firingLength - 1 else c.firingLength,
            firingIndex := if index <= c.firingIndex then c.firingIndex - 1 else c.firingIndex)
  }

  /** An entry that goes before its turn is dropped from the pass. */
  ghost function DropAt(c: CbList, h: History, index: nat): History
    requires c.list.Some? && index < |c.list.value|
  {
    if c.firing && c.firingIndex < index then h.(dropped := h.dropped + {c.list.value[index].tag}) else h
  }

  /** A removal concerns neither the passes nor the names of callbacks. */
  lemma RemoveKeepsNames(c: CbList, h: History, index: nat)
    requires c.list.Some? && index < |c.list.value| && FiresOk(c, h) && NamesOk(c, h)
    ensures FiresOk(RemoveAt(c, index), DropAt(c, h, index)) && NamesOk(RemoveAt(c, index), DropAt(c, h, index))
    ensures forall t: nat | HasTag(RemoveAt(c, index).list.value, 0, t) :: HasTag(c.list.value, 0, t)
  {
    var s, r := c.list.value, RemoveAt(c, index).list.value;
    assert forall k | 0 <= k < |r| :: r[k] == s[if k < index then k else k + 1];
    forall t: nat | HasTag(r, 0, t) ensures HasTag(s, 0, t) {
      var k :| 0 <= k < |r| && r[k].tag == t;
      assert s[if k < index then k else k + 1].tag == t;
    }
  }

  lemma RemovedTags(s: seq<Entry>, i: nat, from: nat, t: nat)
    requires i < |s| && from <= |s| && Ascending(s)
    ensures Ascending(Removed(s, i))
    ensures HasTag(Removed(s, i), if from <= i then from else from - 1, t) <==> HasTag(s, from, t) && t != s[i].tag
  {
    var r := Removed(s, i);
    assert forall k | 0 <= k < |r| :: r[k] == s[if k < i then k else k + 1];
    if HasTag(s, from, t) && t != s[i].tag {
      var k :| from <= k < |s| && s[k].tag == t;
      assert r[if k < i then k else k - 1] == s[k];
    }
    if k :| (if from <= i then from else from - 1) <= k < |r| && r[k].tag == t {
      assert s[if k < i then k else k + 1].tag == t;
    }
  }

  lemma RemoveKeepsAccounts(s: seq<Entry>, h: History, next: nat, i: nat)
    requires next <= |s| && i < |s| && Ascending(s) && Accounts(s, h, next)
    ensures Accounts(Removed(s, i), if next <= i then h.(dropped := h.dropped + {s[i].tag}) else h,
                     if next <= i then next else next - 1)
  {
    var r := Removed(s, i);
    var after := if next <= i then next else next - 1;
    var h' := if next <= i then h.(dropped := h.dropped + {s[i].tag}) else h;
    assert forall k | 0 <= k < |r| :: r[k] == s[if k < i then k else k + 1];
    forall t: nat
      ensures HasTag(r, after, t) <==> HasTag(s, next, t) && t != s[i].tag
      ensures HasTag(r, 0, t) <==> HasTag(s, 0, t) && t != s[i].tag
    {
      RemovedTags(s, i, next, t);
      RemovedTags(s, i, 0, t);
    }
    assert next <= i ==> HasTag(s, next, s[i].tag);
    assert i < next ==> !HasTag(s, next, s[i].tag);
  }

  /** Removing an entry, at any time, keeps the list right. */
  lemma RemoveAtOk(c: CbList, h: History, index: nat, nextTag: nat)
    requires ListOk(c, h, nextTag) && c.list.Some? && index < |c.list.value|
    ensures ListOk(RemoveAt(c, index), DropAt(c, h, index), nextTag)
  {
    var s, c', h' := c.list.value, RemoveAt(c, index), DropAt(c, h, index);
    assert c'.list == Some(Removed(s, index));
    RemovedTags(s, index, 0, 0);
    RemovedEntries(s, h, index, if c.firing then c.firingIndex + 1 else 0);
    if c.firing {
      assert c'.firingIndex + 1 == if c.firingIndex + 1 <= index then c.firingIndex + 1 else c.firingIndex;
      if !h.disturbed {
        RemoveKeepsAccounts(s, h, c.firingIndex + 1, index);
      }
    }
  }

  /** What holds of all entries from some place on still does when one is removed. */
  lemma RemovedEntries(s: seq<Entry>, h: History, i: nat, from: nat)
    requires i < |s|
    ensures forall k | 0 <= k < |Removed(s, i)| :: Removed(s, i)[k] == s[if k < i then k else k + 1]
    ensures Uncalled(s, h, from) ==> Uncalled(Removed(s, i), h, if from <= i then from else from - 1)
    ensures AfterLast(s, h, from) ==> AfterLast(Removed(s, i), h, if from <= i then from else from - 1)
  {
    assert forall k | 0 <= k < |Removed(s, i)| :: Removed(s, i)[k] == s[if k < i then k else k + 1];
  }

  /** `list.push(fn)`. While the list fires, the new entry joins the pass. */
  function Pushed(c: CbList, e: Entry): CbList
    requires c.list.Some?
  {
    var s := c.list.value + [e];
    c.(list := Some(s), firingLength := if c.firing then |s| else c.firingLength)
  }

  ghost function PushedHistory(c: CbList, h: History, e: Entry): History {
    var h' := h.(added := h.added + {e.tag}, names := h.names[e.tag := e.fn]);
    if c.firing then h'.(entered := h.entered + {e.tag}) else h'
  }

  lemma PushOk(c: CbList, h: History, fn: Fn, nextTag: nat)
    requires ListOk(c, h, nextTag) && c.list.Some?
    ensures ListOk(Pushed(c, Entry(fn, nextTag)), PushedHistory(c, h, Entry(fn, nextTag)), nextTag + 1)
  {
    var s := c.list.value;
    if c.firing && !h.disturbed {
      PushKeepsAccounts(s, h, c.firingIndex + 1, Entry(fn, nextTag));
    }
  }

  /** Adding concerns the names only. */
  lemma PushKeepsNames(c: CbList, h: History, e: Entry)
    requires c.list.Some? && FiresOk(c, h) && NamesOk(c, h) && e.tag !in h.added
    ensures FiresOk(Pushed(c, e), PushedHistory(c, h, e)) && NamesOk(Pushed(c, e), PushedHistory(c, h, e))
    ensures forall t: nat | HasTag(Pushed(c, e).list.value, 0, t) :: HasTag(c.list.value, 0, t) || t == e.tag
  {
    var s, r := c.list.value, Pushed(c, e).list.value;
    assert forall k | 0 <= k < |r| :: r[k] == if k < |s| then s[k] else e;
    forall t: nat | HasTag(r, 0, t) ensures HasTag(s, 0, t) || t == e.tag {
      PushedTags(s, e, 0, t);
    }
  }

  lemma PushKeepsAccounts(s: seq<Entry>, h: History, next: nat, e: Entry)
    requires next <= |s| && Accounts(s, h, next)
    requires e.tag !in h.ran && e.tag !in h.dropped && h.last < e.tag && h.passFirst <= e.tag
    ensures Accounts(s + [e], h.(entered := h.entered + {e.tag}), next)
  {
    var r := s + [e];
    forall t: nat
      ensures HasTag(r, next, t) <==> HasTag(s, next, t) || t == e.tag
      ensures HasTag(r, 0, t) <==> HasTag(s, 0, t) || t == e.tag
    {
      PushedTags(s, e, next, t);
      PushedTags(s, e, 0, t);
    }
    assert forall k | 0 <= k < |r| :: r[k] == if k < |s| then s[k] else e;
  }

  lemma PushedTags(s: seq<Entry>, e: Entry, from: nat, t: nat)
    requires from <= |s|
    ensures HasTag(s + [e], from, t) <==> HasTag(s, from, t) || t == e.tag
  {
    var r := s + [e];
    if k :| from <= k < |s| && s[k].tag == t { assert r[k].tag == t; }
    if t == e.tag { assert r[|s|].tag == t; }
    if k :| from <= k < |r| && r[k].tag == t {
      if k < |s| { assert s[k].tag == t; }
    }
  }

  /** The start of a firing pass over the entries from `firingStart` on. */
  function BeginPass(c: CbList, data: Data): CbList
    requires c.list.Some?
  {
    c.(memory := if c.options.memory then Some(data) else None, fired := true, firing := true,
       firingIndex := c.firingStart, firingStart := 0, firingLength := |c.list.value|)
  }

  ghost function BeginHistory(c: CbList, h: History, data: Data, replay: bool, nextTag: nat): History
    requires c.list.Some? && 0 <= c.firingStart <= |c.list.value|
  {
    var s := c.list.value;
    var first := if c.firingStart < |s| then s[c.firingStart].tag else nextTag;
    h.(pass := h.pass + 1, passData := data, passFirst := first, last := first - 1,
       entered := set k | c.firingStart <= k < |s| :: s[k].tag, ran := {}, dropped := {}, disturbed := false,
       fires := h.fires + [Firing(data, replay)])
  }

  lemma BeginOk(c: CbList, h: History, data: Data, replay: bool, nextTag: nat)
    requires BaseOk(c.(fired := true), h.(pass := h.pass + 1), nextTag) && !c.firing && c.list.Some?
    requires 0 <= c.firingStart <= |c.list.value|
    requires c.options.once ==> Uncalled(c.list.value, h, 0)
    ensures BaseOk(BeginPass(c, data), BeginHistory(c, h, data, replay, nextTag), nextTag)
    ensures LoopOk(BeginPass(c, data), BeginHistory(c, h, data, replay, nextTag))
  {}

  lemma AcceptedNext(fires: seq<Firing>, f: Firing)
    ensures Accepted(fires + [f]) == Accepted(fires) + if f.replay then [] else [f.data]
  {
    assert (fires + [f])[..|fires|] == fires;
  }

  /** A new pass takes the next accepted call, or repeats what is remembered. */
  lemma BeginFires(c: CbList, h: History, c': CbList, h': History, data: Data, replay: bool)
    requires FiresOk(c, h) && (replay ==> c.memory == Some(data))
    requires h'.fires == h.fires + [Firing(data, replay)] && h'.pass == h.pass + 1 && h'.passData == data
    requires h'.delivered == (if replay then h.delivered else h.delivered + [data]) && h'.broken == h.broken
    requires c'.memory == if c'.options.memory then Some(data) else None
    ensures FiresOk(c', h')
  {
    var fires, n := h.fires + [Firing(data, replay)], |h.fires|;
    AcceptedNext(h.fires, Firing(data, replay));
    forall k | 0 <= k < |fires| && fires[k].replay ensures k > 0 && fires[k].data == fires[k - 1].data {
      if k < n {
        assert fires[k] == h.fires[k];
      } else {
        assert data == h.fires[n - 1].data;
      }
    }
  }

  /** The entry at `firingIndex` is about to be called. */
  ghost function Running(h: History, tag: nat): History {
    h.(ran := h.ran + {tag}, last := tag, called := h.called + {tag})
  }

  lemma RunningOk(c: CbList, h: History, nextTag: nat)
    requires BaseOk(c, h, nextTag) && c.firing && LoopOk(c, h) && c.list.Some? && c.firingIndex < |c.list.value|
    ensures ListOk(c, Running(h, c.list.value[c.firingIndex].tag), nextTag)
  {
    var s := c.list.value;
    var tag := s[c.firingIndex].tag;
    var h' := Running(h, tag);
    forall t: nat ensures HasTag(s, c.firingIndex, t) <==> HasTag(s, c.firingIndex + 1, t) || t == tag {}
    if !h.disturbed {
      forall t | t in h'.dropped ensures t !in h'.ran {
        assert HasTag(s, 0, tag);
      }
      assert Accounts(s, h', c.firingIndex + 1);
    }
  }

  /** At the end of an undisturbed pass, every entry that entered it has run or was removed first. */
  lemma PassComplete(c: CbList, h: History)
    requires c.list.Some? && LoopOk(c, h) && c.firingIndex >= c.firingLength && !h.disturbed
    ensures h.entered == h.ran + h.dropped && h.ran * h.dropped == {}
  {
    var s := c.list.value;
    assert c.firingIndex == |s|;
    forall t: nat ensures t in h.entered <==> t in h.ran || t in h.dropped {
      assert !HasTag(s, c.firingIndex, t);
    }
  }
}
