/**
 Many callback lists together, and the Deferred objects built from three of them each: what holds
 whenever foreign code can run.
 */
module CallbackViews {
  import opened Wrappers
  import opened CallbackLists

  datatype State = Pending | Resolved | Rejected

  datatype Call = Call(l: nat, pass: nat, tag: nat, data: Data)

  /** An undisturbed firing pass that has come to its end. */
  datatype Pass = Pass(l: nat, number: nat, data: Data, entered: set<nat>, ran: set<nat>, dropped: set<nat>)

  /** What foreign code leaves alone: the lists in `spared` are never emptied, disabled or locked, and
      no callback is removed from a list if the pair of them is in `kept`. */
  datatype Care = Care(spared: iset<nat>, kept: iset<(nat, nat)>)

  /** The functions that Deferred puts in its lists are out of the reach of `remove` anyway. */
  ghost predicate IsKept(care: Care, l: nat, fn: Fn) {
    fn.User? ==> (l, fn.n) in care.kept
  }

  /** The lists of a Deferred `d` are numbered d (done), d + 1 (fail) and d + 2 (progress). What
      foreign code leaves alone is its `care`. */
  datatype View = View(
    lists: map<nat, CbList>,
    hist: map<nat, History>,
    states: map<nat, State>,
    nextTag: nat,
    nextId: nat,
    calls: seq<Call>,
    passes: seq<Pass>,
    care: Care)

  const SettleOptions := Options(true, true, false, false)
  const ProgressOptions := Options(false, true, false, false)

  function SettleList(d: nat, resolve: bool): nat {
    if resolve then d else d + 1
  }

  function SettledState(resolve: bool): State {
    if resolve then Resolved else Rejected
  }

  /** The functions that Deferred puts at the head of its done and fail lists. */
  ghost predicate Internals(s: seq<Entry>, d: nat, resolve: bool) {
    && |s| >= 3
    && s[0].fn == SetState(d, resolve) && s[1].fn == DisableList(SettleList(d, !resolve)) && s[2].fn == LockList(d + 2)
    && forall k | 3 <= k < |s| :: s[k].fn.User?
  }

  ghost predicate HasLists(v: View, d: nat) {
    && d + 2 < v.nextId && (forall k | d <= k <= d + 2 :: k in v.lists && k in v.hist)
    && v.lists[d].options == v.lists[d + 1].options == SettleOptions && v.lists[d + 2].options == ProgressOptions
  }

  /** A done or fail list that has not been fired. */
  ghost predicate Fresh(v: View, d: nat, resolve: bool)
    requires HasLists(v, d)
  {
    var c, h := v.lists[SettleList(d, resolve)], v.hist[SettleList(d, resolve)];
    && !c.fired && !c.firing && c.list.Some? && Internals(c.list.value, d, resolve)
    && forall t <- h.added :: HasTag(c.list.value, 0, t)
  }

  /** A done or fail list that has been fired: the callbacks from `next` on are still to come, all
      the others have been called, and every call was made with the remembered arguments. */
  ghost predicate Serving(v: View, d: nat, resolve: bool, next: nat)
    requires HasLists(v, d)
  {
    var c, h := v.lists[SettleList(d, resolve)], v.hist[SettleList(d, resolve)];
    && c.fired && c.list.Some? && c.memory.Some? && next <= |c.list.value| && h.delivered == [c.memory.value]
    && (forall t <- h.added :: t in h.called || HasTag(c.list.value, next, t))
    && (forall j | 0 <= j < |v.calls| && v.calls[j].l == SettleList(d, resolve) :: v.calls[j].data == c.memory.value)
    && (c.firing ==> !h.disturbed && h.passData == c.memory.value)
  }

  /** The other list can never fire, and no further progress is reported. */
  ghost predicate Closed(v: View, d: nat, resolve: bool)
    requires HasLists(v, d)
  {
    && ShutOff(v, SettleList(d, !resolve)) && ProgressLocked(v.lists[d + 2])
  }

  ghost predicate ShutOff(v: View, l: nat)
    requires l in v.lists && l in v.hist
  {
    v.lists[l].list.None? && !v.lists[l].fired && !v.lists[l].firing && v.hist[l].called == {}
  }

  ghost predicate ProgressLocked(c: CbList) {
    c.stack.None? && (c.list.Some? ==> c.fired)
  }

  /** Every fire call is accepted. */
  ghost predicate TakesAll(c: CbList) {
    c.list.Some? && c.stack.Some?
  }

  /** The progress list of a Deferred takes calls while it is pending, and none once it is locked. */
  ghost predicate ProgressKept(v: View, l: nat, c: CbList)
    requires l in v.lists
  {
    l >= 2 && l - 2 in v.states ==>
      && (ProgressLocked(v.lists[l]) ==> ProgressLocked(c))
      && (v.states[l - 2] == Pending && TakesAll(v.lists[l]) ==> TakesAll(c))
  }

  ghost predicate DeferredOk(v: View, d: nat)
    requires d in v.states
  {
    && HasLists(v, d)
    && match v.states[d]
       case Pending => Fresh(v, d, true) && Fresh(v, d, false) && TakesAll(v.lists[d + 2])
       case Resolved => SettledOk(v, d, true)
       case Rejected => SettledOk(v, d, false)
  }

  ghost predicate SettledOk(v: View, d: nat, resolve: bool)
    requires HasLists(v, d)
  {
    var c := v.lists[SettleList(d, resolve)];
    && c.list.Some?
    && (if c.firing then ServingNow(v, d, resolve)
        else c.list.value == [] && Serving(v, d, resolve, 0))
    && Closed(v, d, resolve)
  }

  /** The settled list is in the middle of a pass, beyond the internal functions. */
  ghost predicate ServingNow(v: View, d: nat, resolve: bool)
    requires HasLists(v, d)
  {
    var c, h := v.lists[SettleList(d, resolve)], v.hist[SettleList(d, resolve)];
    && c.list.Some? && c.firingIndex >= 0 && (h.pass == 1 ==> c.firingIndex >= 3)
    && Serving(v, d, resolve, c.firingIndex + 1) && AllUser(c.list.value, c.firingIndex + 1)
  }

  /** A settled Deferred to whose list callbacks are being added; they are about to be run. */
  ghost predicate SettledAdding(v: View, d: nat, resolve: bool)
    requires HasLists(v, d)
  {
    var c := v.lists[SettleList(d, resolve)];
    && c.list.Some?
    && (if c.firing then ServingNow(v, d, resolve)
        else Serving(v, d, resolve, 0) && AllUser(c.list.value, 0))
    && Closed(v, d, resolve)
  }

  ghost predicate Adding(v: View, d: nat)
    requires d in v.states
  {
    && HasLists(v, d)
    && match v.states[d]
       case Pending => Fresh(v, d, true) && Fresh(v, d, false) && TakesAll(v.lists[d + 2])
       case Resolved => SettledAdding(v, d, true)
       case Rejected => SettledAdding(v, d, false)
  }

  /** The head of the firing loop of a done or fail list. Its first pass starts with the three
      internal functions, which close the other lists one after the other. */
  ghost predicate SettleLoop(v: View, d: nat, resolve: bool)
    requires HasLists(v, d) && d in v.states
  {
    var l := SettleList(d, resolve);
    var c, h := v.lists[l], v.hist[l];
    && c.firing && c.list.Some? && 0 <= c.firingIndex && Serving(v, d, resolve, c.firingIndex)
    && if h.pass == 1 && c.firingIndex < 3 then
         Internals(c.list.value, d, resolve) && Closing(v, d, resolve, c.firingIndex)
       else AllUser(c.list.value, c.firingIndex) && v.states[d] == SettledState(resolve) && Closed(v, d, resolve)
  }

  ghost predicate Closing(v: View, d: nat, resolve: bool, n: nat)
    requires HasLists(v, d) && d in v.states
  {
    && v.states[d] == (if n == 0 then Pending else SettledState(resolve))
    && if n < 2 then Fresh(v, d, !resolve)
       else ShutOff(v, SettleList(d, !resolve))
  }

  ghost predicate AllUser(s: seq<Entry>, from: nat) {
    forall k | from <= k < |s| :: s[k].fn.User?
  }

  /** No other Deferred shares the lists of `d`. */
  ghost predicate Apart(v: View) {
    && (forall d, e | d in v.states && e in v.states && d < e :: d + 3 <= e)
    && forall d <- v.states :: d + 2 < v.nextId
  }

  ghost predicate IsSettleList(v: View, l: nat) {
    l in v.states || (l >= 1 && l - 1 in v.states)
  }

  ghost predicate OwnedByDeferred(v: View, l: nat) {
    IsSettleList(v, l) || (l >= 2 && l - 2 in v.states)
  }

  /** Calls on a list belong to its passes, come pass after pass, and in list order within a pass. */
  ghost predicate CallsOk(v: View) {
    && (forall j {:trigger v.calls[j]} | 0 <= j < |v.calls| :: CallOk(v, v.calls[j]))
    && (forall i, j | 0 <= i < j < |v.calls| && v.calls[i].l == v.calls[j].l :: InTurn(v.calls[i], v.calls[j]))
    && (forall i, j | 0 <= i < j < |v.calls| && v.calls[i].l == v.calls[j].l ::
          OnceTags(v, v.calls[i].l, v.calls[i].tag, v.calls[j].tag))
  }

  ghost predicate InTurn(a: Call, b: Call) {
    a.pass < b.pass || (a.pass == b.pass && a.tag < b.tag)
  }

  ghost predicate OnceTags(v: View, l: nat, s: nat, t: nat) {
    l in v.lists && v.lists[l].options.once ==> s != t
  }

  ghost predicate CallOk(v: View, call: Call) {
    && call.l in v.lists && call.l in v.hist
    && var h := v.hist[call.l];
      && call.tag in h.called && 1 <= call.pass <= h.pass
      && (call.pass == h.pass ==> call.tag in h.ran && call.tag <= h.last)
      && call.pass <= |h.fires| && call.data == h.fires[call.pass - 1].data
  }

  /** Every entry that a pass has run was called in it. */
  ghost predicate RanWereCalled(v: View, l: nat)
    requires l in v.hist
  {
    var h := v.hist[l];
    && (forall t <- h.ran :: Call(l, h.pass, t, h.passData) in v.calls)
    && (forall t <- h.called :: WasCalled(v.calls, l, t))
  }

  ghost predicate WasCalled(calls: seq<Call>, l: nat, t: nat) {
    exists j | 0 <= j < |calls| :: calls[j].l == l && calls[j].tag == t
  }

  /** A finished pass has run everything that entered it, but for what was removed first. */
  ghost predicate PassOk(p: Pass, calls: seq<Call>) {
    && p.entered == p.ran + p.dropped && p.ran * p.dropped == {}
    && (forall t <- p.ran :: Call(p.l, p.number, t, p.data) in calls)
    && forall j | 0 <= j < |calls| && calls[j].l == p.l && calls[j].pass == p.number :: calls[j].tag in p.ran
  }

  /** The place of a finished pass in the history of its list. What it has dropped is gone for good. */
  ghost predicate OnRecord(v: View, p: Pass) {
    && PassOk(p, v.calls) && p.l in v.lists && p.l in v.hist
    && var c, h := v.lists[p.l], v.hist[p.l];
      && 1 <= p.number <= h.pass && (c.firing ==> p.number < h.pass)
      && p.number <= |h.fires| && p.data == h.fires[p.number - 1].data
      && forall t <- p.dropped :: t < v.nextTag && !Listed(c, t) && RemovedByForeign(v, p.l, t)
  }

  /** The entry was one that foreign code may remove. */
  ghost predicate RemovedByForeign(v: View, l: nat, t: nat)
    requires l in v.hist
  {
    t in v.hist[l].names && !IsKept(v.care, l, v.hist[l].names[t])
  }

  ghost predicate Listed(c: CbList, t: nat) {
    c.list.Some? && HasTag(c.list.value, 0, t)
  }

  /** The list has gained new entries only. */
  ghost predicate NoneBack(c: CbList, c': CbList, nextTag: nat) {
    forall t: nat | Listed(c', t) :: t >= nextTag || Listed(c, t)
  }

  /** A list whose passes nothing can break off. */
  ghost predicate Safe(v: View, l: nat) {
    l in v.lists && l in v.care.spared && !v.lists[l].options.stopOnFalse
  }

  ghost predicate SafeOk(v: View, l: nat)
    requires l in v.lists && l in v.hist
  {
    Safe(v, l) ==> v.hist[l].broken == {} && (v.lists[l].firing ==> !v.hist[l].disturbed) && Remembers(v.lists[l])
  }

  ghost predicate Remembers(c: CbList) {
    c.fired && c.options.memory ==> c.memory.Some?
  }

  ghost predicate ListsOk(v: View, out: set<nat>) {
    && v.lists.Keys == v.hist.Keys
    && forall l {:trigger OneListOk(v, out, l)} | l in v.lists :: OneListOk(v, out, l)
  }

  ghost predicate OneListOk(v: View, out: set<nat>, l: nat)
    requires l in v.lists && l in v.hist
  {
    && l < v.nextId && BaseOk(v.lists[l], v.hist[l], v.nextTag)
    && (l !in out ==> ListOk(v.lists[l], v.hist[l], v.nextTag))
    && RanWereCalled(v, l) && PlainOk(v, l) && PassesKept(v, l) && FiresOk(v.lists[l], v.hist[l]) && SafeOk(v, l)
    && NamesOk(v.lists[l], v.hist[l]) && forall t <- v.hist[l].dropped :: RemovedByForeign(v, l, t)
  }

  /** Every pass that has ended is on record, unless something broke it off. */
  ghost predicate PassesKept(v: View, l: nat)
    requires l in v.lists && l in v.hist
  {
    forall k {:trigger HasPass(v.passes, l, k)} | 1 <= k <= v.hist[l].pass ::
      HasPass(v.passes, l, k) || k in v.hist[l].broken || (k == v.hist[l].pass && v.lists[l].firing)
  }

  ghost predicate HasPass(passes: seq<Pass>, l: nat, number: nat) {
    exists i | 0 <= i < |passes| :: passes[i].l == l && passes[i].number == number
  }

  ghost predicate DeferredsOk(v: View, out: set<nat>) {
    forall d {:trigger OneDeferredOk(v, out, d)} | d in v.states :: OneDeferredOk(v, out, d)
  }

  ghost predicate OneDeferredOk(v: View, out: set<nat>, d: nat)
    requires d in v.states
  {
    HasLists(v, d) && (d !in out && d + 1 !in out ==> DeferredOk(v, d))
  }

  /** What holds at all times; for the lists in `out`, only outside the middle of a fire call. */
  ghost predicate Inv(v: View, out: set<nat>) {
    && ListsOk(v, out) && Apart(v) && DeferredsOk(v, out)
    && CallsOk(v) && forall p {:trigger OnRecord(v, p)} | p in v.passes :: OnRecord(v, p)
  }

  /** Lists other than done and fail lists hold foreign callbacks only. */
  ghost predicate PlainOk(v: View, l: nat)
    requires l in v.lists
  {
    !IsSettleList(v, l) && v.lists[l].list.Some? ==> AllUser(v.lists[l].list.value, 0)
  }

  ghost predicate NamesGrew(h: History, h': History) {
    forall t <- h.names :: t in h'.names && h'.names[t] == h.names[t]
  }

  /** The record of a list only grows. */
  ghost predicate ListGrew(c: CbList, h: History, c': CbList, h': History) {
    && c'.options == c.options && (c.fired ==> c'.fired)
    && h.requested <= h'.requested && h.delivered <= h'.delivered && h.added <= h'.added && h.broken <= h'.broken
    && h.pass <= h'.pass && h.fires <= h'.fires && NamesGrew(h, h')
  }

  /** What other calls may do to a list: nothing at all to the progress of a pass that is under way. */
  ghost predicate ListEvolves(c: CbList, h: History, c': CbList, h': History) {
    && ListGrew(c, h, c', h') && c'.firing == c.firing
    && (c.firing ==>
          && h'.pass == h.pass && h.entered <= h'.entered && h'.passData == h.passData && h'.passFirst == h.passFirst
          && h'.ran == h.ran && h'.last == h.last && h'.called == h.called && (h.disturbed ==> h'.disturbed)
          && h'.delivered == h.delivered && h'.fires == h.fires && c'.firingStart == c.firingStart)
  }

  ghost predicate RecordGrew(a: View, b: View) {
    && a.lists.Keys <= b.lists.Keys && a.hist.Keys <= b.hist.Keys && a.states.Keys <= b.states.Keys
    && a.nextTag <= b.nextTag && a.nextId <= b.nextId && a.calls <= b.calls && a.passes <= b.passes
    && a.care == b.care
    && (forall d <- a.states :: a.states[d] != Pending ==> b.states[d] == a.states[d])
  }

  ghost predicate Evolves(a: View, b: View) {
    && RecordGrew(a, b)
    && (forall l {:trigger ListEvolves(a.lists[l], a.hist[l], b.lists[l], b.hist[l])} | l in a.lists && l in a.hist ::
          ListEvolves(a.lists[l], a.hist[l], b.lists[l], b.hist[l]))
    && (forall l {:trigger b.lists[l].firing} | l in b.lists && l !in a.lists :: !b.lists[l].firing)
  }

  /** The same, seen from a fire call on list `self`. */
  ghost predicate EvolvesBut(a: View, b: View, self: nat) {
    && RecordGrew(a, b)
    && (self in a.lists && self in a.hist ==> ListGrew(a.lists[self], a.hist[self], b.lists[self], b.hist[self]))
    && (forall l {:trigger ListEvolves(a.lists[l], a.hist[l], b.lists[l], b.hist[l])}
          | l in a.lists && l in a.hist && l != self ::
          ListEvolves(a.lists[l], a.hist[l], b.lists[l], b.hist[l]))
    && (forall l {:trigger b.lists[l].firing} | l in b.lists && l !in a.lists :: !b.lists[l].firing)
  }
}
