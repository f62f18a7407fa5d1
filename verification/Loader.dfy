/**
 The RequireJS module loader. Factories and callbacks are foreign code: while one runs, it may make
 any finite number of calls into the loader, given by a script that is used up from the front.
 */
module ModuleLoader {
  import opened Wrappers
  import opened LoaderState
  import opened LoaderSteps
  import opened LoaderWiring
  import opened LoaderGraph

  datatype Action =
    | Define(name: string, deps: seq<Dep>, factory: Factory)
    | RequireCall(deps: seq<Dep>, factory: Factory)
    | CheckModule(id: Id)
    | CheckLoaded
    | Return(result: Option<Value>, moduleExports: Option<Value>)
    | Throw

  /** Everything that calls may change, as a value. */
  datatype Moment = Moment(v: View, script: seq<Action>)

  ghost predicate Calm(script: seq<Action>) {
    Throw !in script
  }

  /** Modules that have dependencies but have not been enabled yet. */
  ghost function Unwired(mods: map<Id, Module>): set<Id> {
    set id | id in mods && mods[id].inited && !mods[id].enabled
  }

  ghost function Unannounced(mods: map<Id, Module>): set<Id> {
    set id | id in mods && !mods[id].defineEmitted
  }

  ghost predicate Passed(a: Moment, b: Moment) {
    && |b.script| <= |a.script| && Grows(a.v.mods, b.v.mods)
    && (Calm(a.script) ==> Calm(b.script) && NoNewErrors(a.v.mods, b.v.mods))
    && a.v.forced <= b.v.forced && a.v.log <= b.v.log
    && forall e <- b.v.forced - a.v.forced :: OnCycle(b.v.mods, e)
  }

  /** What a call into the loader may have done, whatever foreign code ran meanwhile. */
  ghost predicate Ran(a: Moment, b: Moment) {
    && Evolves(a.v.mods, b.v.mods) && Passed(a, b)
    && (|b.script| == |a.script| ==> Unwired(b.v.mods) <= Unwired(a.v.mods))
  }

  /** The same while the caller is working on `self`. */
  ghost predicate RanBut(a: Moment, b: Moment, self: Id) {
    && EvolvesBut(a.v.mods, b.v.mods, self) && Passed(a, b)
    && (|b.script| == |a.script| ==> Unwired(b.v.mods) <= Unwired(a.v.mods))
  }

  lemma PassedTransitive(a: Moment, b: Moment, c: Moment)
    requires Passed(a, b) && Passed(b, c)
    ensures Passed(a, c)
  {
    forall id | id in a.v.mods ensures ModuleGrows(a.v.mods[id], c.v.mods[id]) {
      assert ModuleGrows(a.v.mods[id], b.v.mods[id]) && ModuleGrows(b.v.mods[id], c.v.mods[id]);
    }
    forall e | e in c.v.forced - a.v.forced ensures OnCycle(c.v.mods, e) {
      if e in b.v.forced { OnCycleGrows(b.v.mods, c.v.mods, e); }
    }
  }

  /** An error is allowed when something has thrown. */
  lemma FailedPassed(a: Moment, b: Moment, c: Moment)
    requires Passed(a, b) && !Calm(a.script) && Grows(b.v.mods, c.v.mods)
    requires c.script == b.script && c.v.forced == b.v.forced && c.v.log == b.v.log
    ensures Passed(a, c)
  {
    forall id | id in a.v.mods ensures ModuleGrows(a.v.mods[id], c.v.mods[id]) {
      assert ModuleGrows(a.v.mods[id], b.v.mods[id]) && ModuleGrows(b.v.mods[id], c.v.mods[id]);
    }
    forall e | e in c.v.forced - a.v.forced ensures OnCycle(c.v.mods, e) {
      OnCycleGrows(b.v.mods, c.v.mods, e);
    }
  }

  lemma RanTransitive(a: Moment, b: Moment, c: Moment)
    requires Ran(a, b) && Ran(b, c)
    ensures Ran(a, c)
  {
    EvolvesTransitive(a.v.mods, b.v.mods, c.v.mods);
    PassedTransitive(a, b, c);
  }

  lemma RanButTransitive(a: Moment, b: Moment, c: Moment, self: Id)
    requires RanBut(a, b, self) && (RanBut(b, c, self) || Ran(b, c))
    ensures RanBut(a, c, self)
  {
    if Ran(b, c) { EvolvesForgets(b.v.mods, c.v.mods, self); }
    EvolvesButTransitive(a.v.mods, b.v.mods, c.v.mods, self);
    PassedTransitive(a, b, c);
  }

  lemma RanThenBut(a: Moment, b: Moment, c: Moment, self: Id)
    requires Ran(a, b) && RanBut(b, c, self)
    ensures RanBut(a, c, self)
  {
    EvolvesForgets(a.v.mods, b.v.mods, self);
    RanButTransitive(a, b, c, self);
  }

  lemma RanAgain(a: Moment, b: Moment, self: Id)
    requires RanBut(a, b, self) && self in a.v.mods && !a.v.mods[self].Busy() && self in b.v.mods
    requires !b.v.mods[self].Busy()
    ensures Ran(a, b)
  {
    EvolvesAgain(a.v.mods, b.v.mods, self);
  }

  lemma RanNothing(a: Moment)
    ensures Ran(a, a)
  {}

  lemma RanPop(a: Moment)
    requires a.script != []
    ensures Ran(a, a.(script := a.script[1..]))
  {}

  /** An assignment to one record, seen from its own call. */
  lemma RanUpdate(a: Moment, b: Moment, self: Id)
    requires self in a.v.mods && self in b.v.mods && b.v.mods == a.v.mods[self := b.v.mods[self]]
    requires ModuleGrows(a.v.mods[self], b.v.mods[self])
    requires b.script == a.script && a.v.forced == b.v.forced && a.v.log <= b.v.log
    requires Calm(a.script) ==> b.v.mods[self].error == a.v.mods[self].error
    requires self in Unwired(b.v.mods) ==> self in Unwired(a.v.mods)
    ensures RanBut(a, b, self)
    ensures ModuleEvolves(a.v.mods[self], b.v.mods[self]) ==> Ran(a, b)
  {
    forall id | id in a.v.mods && id != self ensures ModuleEvolves(a.v.mods[id], b.v.mods[id]) {}
    assert Grows(a.v.mods, b.v.mods);
  }

  /** What a call into the loader has done for good: a definition is taken unless its module has a value
      or an earlier one, and a `require` call makes an enabled module under a new name. */
  ghost predicate Taken(action: Action, a: Moment, b: Moment) {
    match action
    case Define(name, deps, factory) =>
      var id := Named(name);
      id !in a.v.defined ==>
        && id in b.v.mods && b.v.mods[id].inited
        && ((id in a.v.mods && a.v.mods[id].inited) || HasDefinition(b.v.mods[id], deps, factory))
    case RequireCall(deps, factory) =>
      var id := Internal(a.v.requireCounter + 1);
      id in b.v.mods && b.v.mods[id].inited && b.v.mods[id].enabled && HasDefinition(b.v.mods[id], deps, factory)
    case _ => true
  }

  ghost predicate HasDefinition(m: Module, deps: seq<Dep>, factory: Factory) {
    m.deps == deps && m.factory == factory
  }

  lemma TakenStays(action: Action, a: Moment, b: Moment, c: Moment)
    requires Taken(action, a, b) && Evolves(b.v.mods, c.v.mods)
    ensures Taken(action, a, c)
  {
    var id := if action.Define? then Named(action.name) else Internal(a.v.requireCounter + 1);
    if id in b.v.mods { assert ModuleEvolves(b.v.mods[id], c.v.mods[id]); }
  }

  /** A module that is working keeps its own progress while others run. */
  lemma StillWorking(a: Moment, b: Moment, id: Id)
    requires Ran(a, b) && id in a.v.mods && a.v.mods[id].Busy()
    ensures id in b.v.mods
    ensures var m, n := a.v.mods[id], b.v.mods[id];
      && ModuleGrows(m, n)
      && n.defining == m.defining && n.enabling == m.enabling && n.wired == m.wired
      && n.defined == m.defined && n.defineEmitComplete == m.defineEmitComplete && n.error == m.error
      && n.exports == m.exports && n.usingExports == m.usingExports
  {
    assert ModuleEvolves(a.v.mods[id], b.v.mods[id]);
  }

  lemma RecordIn(v: View, unsettled: set<Id>, id: Id)
    requires Inv(v, unsettled) && id in v.mods
    ensures RecordOk(v, id) && MatchesOk(v, id) && WaitsOk(v, id) && ListenersOk(v, id) && LinksOk(v, id)
    ensures id !in unsettled ==> v.mods[id].Settled()
  {}

  lemma Settle(v: View, id: Id)
    requires Inv(v, {id}) && id in v.mods && v.mods[id].Settled()
    ensures Inv(v, {})
  {}

  lemma NotStartedYet(v: View, unsettled: set<Id>, id: Id)
    requires Inv(v, unsettled) && id in v.mods && !v.mods[id].defining && !v.mods[id].defined && !v.mods[id].error
    ensures !HasStarted(id, v.log)
  {}

  lemma CompleteRan(a: Moment, id: Id, exports: Option<Value>)
    requires id in a.v.mods && !a.v.mods[id].defined && a.v.mods[id].enabled
    ensures RanBut(a, Moment(CompleteView(a.v, id, exports), a.script), id)
  {
    RanUpdate(a, Moment(CompleteView(a.v, id, exports), a.script), id);
  }

  lemma CompleteSets(v: View, id: Id, exports: Option<Value>)
    requires id in v.mods && v.mods[id].enabled
    ensures var w := CompleteView(v, id, exports);
      && Unwired(w.mods) == Unwired(v.mods) && Unannounced(w.mods) == Unannounced(v.mods) - {id}
      && w.mods.Keys == v.mods.Keys
      && w.mods[id].defined && w.mods[id].exports == exports
      && w.mods[id].defineEmitComplete == v.mods[id].defineEmitComplete
      && w.forced == v.forced
  {}

  lemma MatchRan(a: Moment, id: Id, i: nat, value: Option<Value>)
    requires id in a.v.mods && a.v.mods[id].Consistent() && i in a.v.mods[id].Pending()
    ensures Ran(a, Moment(Put(a.v, id, Matched(a.v.mods[id], i, value)), a.script))
  {
    MatchedRecord(a.v.mods[id], i, value);
    RanUpdate(a, Moment(Put(a.v, id, Matched(a.v.mods[id], i, value)), a.script), id);
  }

  lemma UnannouncedShrinks(a: map<Id, Module>, b: map<Id, Module>)
    requires Evolves(a, b) && b.Keys == a.Keys
    ensures Unannounced(b) <= Unannounced(a)
  {
    forall id | id in Unannounced(b) ensures id in Unannounced(a) {
      assert ModuleEvolves(a[id], b[id]);
    }
  }

  lemma DefineStep(a: Moment, id: Id, i: nat, value: Option<Value>)
    requires Inv(a.v, {id}) && id in a.v.mods && i in a.v.mods[id].Pending()
    requires (id, i) !in a.v.forced ==>
      var d := a.v.mods[id].deps[i].Target();
      d in a.v.mods && a.v.mods[d].defined && d in a.v.defined && value == a.v.defined[d]
    ensures var w := Put(a.v, id, Matched(a.v.mods[id], i, value));
      && Inv(w, {id}) && Ran(a, Moment(w, a.script)) && w.enabledRegistry == a.v.enabledRegistry
      && Unwired(w.mods) == Unwired(a.v.mods) && Unannounced(w.mods) == Unannounced(a.v.mods)
  {
    RecordIn(a.v, {id}, id);
    MatchStep(a.v, id, i, value);
    MatchRan(a, id, i, value);
    SameStages(a.v.mods, Put(a.v, id, Matched(a.v.mods[id], i, value)).mods);
  }

  /** `defineEmitComplete = true` */
  lemma SealStep(a: Moment, id: Id)
    requires Inv(a.v, {}) && id in a.v.mods && a.v.mods[id].defined && Told(a.v.mods, id, |a.v.mods[id].listeners|)
    ensures var w := Put(a.v, id, a.v.mods[id].(defineEmitComplete := true));
      && Inv(w, {}) && RanBut(a, Moment(w, a.script), id) && w.enabledRegistry == a.v.enabledRegistry
      && w.mods.Keys == a.v.mods.Keys
      && !w.mods[id].Busy() && Told(w.mods, id, |w.mods[id].listeners|)
  {
    RecordIn(a.v, {}, id);
    AnnouncedStep(a.v, id);
    RanUpdate(a, Moment(Put(a.v, id, a.v.mods[id].(defineEmitComplete := true)), a.script), id);
  }

  /** An edge on a cycle is about to be forced. */
  lemma ForcedStep(a: Moment, id: Id, i: nat)
    requires Inv(a.v, {}) && id in a.v.mods && i in a.v.mods[id].Pending()
    requires Reaches(a.v.mods, a.v.mods[id].deps[i].Target(), id)
    ensures var u := a.v.(forced := a.v.forced + {(id, i)});
      Inv(u, {id}) && Ran(a, Moment(u, a.script))
    ensures var m := a.v.mods[id]; m.inited && m.enabled && !m.enabling ==> m.wired == |m.deps|
  {
    var u := a.v.(forced := a.v.forced + {(id, i)});
    RecordIn(a.v, {}, id);
    RanNothing(a);
    ForcedGrows(a.v, {}, u.forced);
    Unsettle(u, id);
  }

  lemma SameStages(a: map<Id, Module>, b: map<Id, Module>)
    requires b.Keys == a.Keys
    requires forall id <- a ::
      b[id].inited == a[id].inited && b[id].enabled == a[id].enabled && b[id].defineEmitted == a[id].defineEmitted
    ensures Unwired(b) == Unwired(a) && Unannounced(b) == Unannounced(a)
  {}

  /** A module is about to have its value: it is being defined and waits for nothing. */
  ghost predicate Working(m: Module) {
    m.inited && m.enabled && !m.enabling && m.defining && !m.error && !m.defined && m.wired == |m.deps|
      && m.depCount < 1
  }

  lemma WaitsForNothing(v: View, id: Id, m: Module)
    requires Inv(v, {}) && id in v.mods && m.Consistent() && Working(m)
    requires ModuleGrows(m, v.mods[id]) && v.mods[id].wired == m.wired
    ensures v.mods[id].depCount == 0
  {
    var n := v.mods[id];
    assert RecordOk(v, id);
    assert m.Pending() == {};
    forall i | i in n.Pending() ensures i in m.Pending() {}
    assert n.Pending() == {};
  }

  lemma Unsettle(v: View, id: Id)
    requires Inv(v, {})
    ensures Inv(v, {id})
  {}

  lemma EnablingRecord(m: Module)
    requires m.Consistent() && m.wired == 0 && m.inited && !m.enabling && !m.defining && !m.defined && !m.error
    ensures m.(enabled := true, enabling := true).Consistent()
  {
    assert m.(enabled := true, enabling := true).Pending() == m.Pending();
  }

  lemma EnabledRecord(m: Module)
    requires m.Consistent() && m.enabling && !m.error
    ensures m.(enabling := false).Consistent() && !m.(enabling := false).Busy()
  {
    assert m.(enabling := false).Pending() == m.Pending();
  }

  lemma ListeningRan(a: Moment, id: Id)
    requires id in a.v.mods && CanListen(a.v, id)
    ensures RanBut(a, Moment(Listening(a.v, id), a.script), id)
  {
    ListeningEvolves(a.v, id);
    ListeningSets(a.v, id);
  }

  lemma ListeningEvolves(v: View, id: Id)
    requires id in v.mods && CanListen(v, id)
    ensures var w := Listening(v, id);
      && EvolvesBut(v.mods, w.mods, id) && Grows(v.mods, w.mods) && w.forced == v.forced && w.log == v.log
  {
    var w := Listening(v, id);
    forall x | x in v.mods && x != id ensures ModuleEvolves(v.mods[x], w.mods[x]) {
      ListeningRecord(v, id, x);
    }
    ListeningRecord(v, id, id);
  }

  lemma ListeningSets(v: View, id: Id)
    requires id in v.mods && CanListen(v, id)
    ensures Unwired(Listening(v, id).mods) <= Unwired(v.mods) && NoNewErrors(v.mods, Listening(v, id).mods)
  {
    var w := Listening(v, id);
    forall x | x in Unwired(w.mods) ensures x in Unwired(v.mods) {
      ListeningRecord(v, id, x);
    }
    forall x | x in v.mods && w.mods[x].error ensures v.mods[x].error {
      ListeningRecord(v, id, x);
    }
  }

  /** Every module of `stack` leads to `id` by dependencies. */
  ghost predicate OnStack(mods: map<Id, Module>, stack: set<Id>, id: Id) {
    forall t <- stack :: Reaches(mods, t, id)
  }

  /** Unless the region is empty: it is quiet, nothing will throw, and what has been processed of it
      is defined. */
  ghost predicate Completing(now: Moment, region: set<Id>, processed: set<Id>) {
    region != {} ==> Quiet(now.v.mods, region) && Calm(now.script) && AllDefined(now.v.mods, region * processed)
  }

  lemma StackGrows(mods: map<Id, Module>, stack: set<Id>, id: Id, d: Id)
    requires OnStack(mods, stack, id) && DependsOn(mods, id, d)
    ensures OnStack(mods, stack, d)
  {
    forall t | t in stack ensures Reaches(mods, t, d) {
      ReachesNext(mods, t, id, d);
    }
  }

  lemma StackEvolves(a: map<Id, Module>, b: map<Id, Module>, stack: set<Id>, id: Id)
    requires Grows(a, b) && OnStack(a, stack, id)
    ensures OnStack(b, stack, id)
  {
    forall t | t in stack ensures Reaches(b, t, id) {
      ReachesGrows(a, b, t, id);
    }
  }

  lemma StillCompleting(a: Moment, b: Moment, region: set<Id>, processed: set<Id>)
    requires Completing(a, region, processed) && Ran(a, b)
    ensures Completing(b, region, processed)
  {
    if region != {} { QuietEvolves(a.v.mods, b.v.mods, region); }
  }

  /** In a quiet region, defined modules have told everyone. */
  lemma DefinedIsMatched(v: View, region: set<Id>, id: Id, i: nat)
    requires Inv(v, {}) && Quiet(v.mods, region) && id in region && i < |v.mods[id].deps| && v.mods[id].deps[i].On?
    requires i !in v.mods[id].matched ==>
      var d := v.mods[id].deps[i].Target(); d !in v.registry || v.mods[d].defined
    ensures i in v.mods[id].matched
  {
    RecordIn(v, {}, id);
    if i !in v.mods[id].matched {
      assert i in v.mods[id].Pending();
      RecordIn(v, {}, v.mods[id].deps[i].Target());
    }
  }

  ghost predicate MatchedBelow(m: Module, i: nat)
    requires i <= |m.deps|
  {
    forall j | 0 <= j < i && m.deps[j].On? :: j in m.matched
  }

  lemma MatchedNext(m: Module, n: Module, i: nat)
    requires i < |m.deps| && n.deps == m.deps && m.matched <= n.matched
    requires MatchedBelow(m, i) && (m.deps[i].On? ==> i in n.matched)
    ensures MatchedBelow(n, i + 1)
  {}

  lemma AllMatchedIsDefined(v: View, id: Id)
    requires Inv(v, {}) && id in v.mods
    requires var m := v.mods[id];
      m.inited && m.enabled && !m.error && !m.Busy() && MatchedBelow(m, |m.deps|)
    ensures v.mods[id].defined
  {
    RecordIn(v, {}, id);
    assert v.mods[id].Pending() == {};
  }

  /** The first `k` listeners of a module have been told. */
  ghost predicate Told(mods: map<Id, Module>, id: Id, k: nat)
    requires id in mods && k <= |mods[id].listeners|
  {
    forall j | 0 <= j < k :: var (x, i) := mods[id].listeners[j]; x in mods && i in mods[x].matched
  }

  lemma StillTold(a: map<Id, Module>, b: map<Id, Module>, id: Id, k: nat)
    requires id in a && id in b && k <= |a[id].listeners| && b[id].listeners == a[id].listeners
    requires Evolves(a, b) && Told(a, id, k)
    ensures Told(b, id, k)
  {
    forall j | 0 <= j < k ensures var (x, i) := b[id].listeners[j]; x in b && i in b[x].matched {
      var (x, i) := a[id].listeners[j];
      assert ModuleEvolves(a[x], b[x]);
    }
  }

  /** A listener waits for the value of this very module. */
  lemma ListenerReady(v: View, id: Id, k: nat)
    requires Inv(v, {}) && id in v.mods && v.mods[id].defined && k < |v.mods[id].listeners|
    ensures var (x, i) := v.mods[id].listeners[k];
      && x in v.mods && i < v.mods[x].wired && i < |v.mods[x].deps| && v.mods[x].deps[i].On?
      && v.mods[x].deps[i].Target() == id && id in v.defined && v.defined[id] == v.mods[id].exports
      && Inv(v, {x})
      && (v.mods[x].inited && v.mods[x].enabled && !v.mods[x].enabling ==> v.mods[x].wired == |v.mods[x].deps|)
  {
    RecordIn(v, {}, id);
    var (x, i) := v.mods[id].listeners[k];
    RecordIn(v, {}, x);
    Unsettle(v, x);
  }

  /** A module in the middle of `enable` stays there while others run. */
  lemma StillEnabling(a: Moment, b: Moment, id: Id, n: nat)
    requires Ran(a, b) && id in a.v.mods && Enabling(a.v.mods[id]) && a.v.mods[id].inited && Linked(a.v.mods, id, n)
    ensures RanBut(a, b, id) && id in b.v.mods && Enabling(b.v.mods[id]) && b.v.mods[id].inited
    ensures b.v.mods[id].wired == a.v.mods[id].wired && b.v.mods[id].deps == a.v.mods[id].deps
    ensures Linked(b.v.mods, id, n)
  {
    StillWorking(a, b, id);
    EvolvesForgets(a.v.mods, b.v.mods, id);
    LinkedGrows(a.v.mods, b.v.mods, id, n);
  }

  lemma ListenStep(a: Moment, id: Id)
    requires Inv(a.v, {}) && id in a.v.mods && Enabling(a.v.mods[id]) && a.v.mods[id].inited
    requires a.v.mods[id].wired < |a.v.mods[id].deps| && a.v.mods[id].deps[a.v.mods[id].wired].On?
    requires a.v.mods[id].deps[a.v.mods[id].wired].Target() in a.v.registry && Linked(a.v.mods, id, a.v.mods[id].wired)
    ensures CanListen(a.v, id) && Inv(Listening(a.v, id), {}) && RanBut(a, Moment(Listening(a.v, id), a.script), id)
    ensures var d, m, w := a.v.mods[id].deps[a.v.mods[id].wired].Target(), a.v.mods[id], Listening(a.v, id).mods;
      && Enabling(w[id]) && w[id].inited && w[id].deps == m.deps && w[id].wired == m.wired + 1 && Linked(w, id, m.wired)
      && d in w && (id, m.wired) in w[d].listeners && m.wired in w[id].Pending()
  {
    var d, m, w := a.v.mods[id].deps[a.v.mods[id].wired].Target(), a.v.mods[id], Listening(a.v, id).mods;
    RecordIn(a.v, {}, id);
    RecordIn(a.v, {}, d);
    WireListenStep(a.v, id);
    ListeningRan(a, id);
    ListeningRecord(a.v, id, id);
    ListeningRecord(a.v, id, d);
    LinkedGrows(a.v.mods, w, id, m.wired);
    assert w[d].listeners[|a.v.mods[d].listeners|] == (id, m.wired);
  }

  /** A special dependency is wired; an `exports` object that is handed out is noted as a value. */
  ghost function SpecialView(v: View, id: Id): View
    requires id in v.mods && v.mods[id].wired < |v.mods[id].deps| && !v.mods[id].deps[v.mods[id].wired].On?
  {
    var m := v.mods[id];
    var dep := m.deps[m.wired];
    var (value, exports) := Handler(id, m, dep);
    var w := Put(v, id, WiredSpecial(m, value, exports, m.usingExports || dep.ExportsDep?));
    if dep.ExportsDep? && m.isDefine && m.exports.None? then w.(defined := w.defined[id := exports]) else w
  }

  lemma SpecialStep(a: Moment, id: Id)
    requires Inv(a.v, {}) && id in a.v.mods && Enabling(a.v.mods[id]) && a.v.mods[id].inited
    requires a.v.mods[id].wired < |a.v.mods[id].deps| && !a.v.mods[id].deps[a.v.mods[id].wired].On?
    requires Linked(a.v.mods, id, a.v.mods[id].wired)
    ensures Inv(SpecialView(a.v, id), {}) && RanBut(a, Moment(SpecialView(a.v, id), a.script), id)
    ensures Grows(a.v.mods, SpecialView(a.v, id).mods)
  {
    RecordIn(a.v, {}, id);
    var m := a.v.mods[id];
    var dep := m.deps[m.wired];
    var (value, exports) := Handler(id, m, dep);
    WireSpecialStep(a.v, id, value, exports, m.usingExports || dep.ExportsDep?);
    var w := Put(a.v, id, WiredSpecial(m, value, exports, m.usingExports || dep.ExportsDep?));
    if dep.ExportsDep? && m.isDefine && m.exports.None? { EarlyExportsStep(w, id); }
    RanUpdate(a, Moment(SpecialView(a.v, id), a.script), id);
  }

  /** The dependency wired last is enabled, or has nothing left to enable. */
  lemma LastLinked(v: View, id: Id)
    requires Inv(v, {}) && id in v.mods && 0 < v.mods[id].wired <= |v.mods[id].deps|
    requires Linked(v.mods, id, v.mods[id].wired - 1)
    requires var m := v.mods[id];
      m.deps[m.wired - 1].On? && m.deps[m.wired - 1].Target() in v.registry ==>
        v.mods[m.deps[m.wired - 1].Target()].enabled
    ensures Linked(v.mods, id, v.mods[id].wired)
  {
    RecordIn(v, {}, id);
    var m := v.mods[id];
    if m.deps[m.wired - 1].On? { RecordIn(v, {}, m.deps[m.wired - 1].Target()); }
  }

  /** The `require` calls among the enabled modules are those that are registered, and those that are
      defined already. */
  lemma RequiresDone(a: Moment, b: Moment, region: set<Id>)
    requires Inv(a.v, {}) && region <= a.v.mods.Keys && Ran(a, b)
    requires forall id <- EnabledIn(a.v.mods, region) | id in a.v.enabledRegistry && !a.v.mods[id].isDefine ::
      id in b.v.mods && b.v.mods[id].defined
    ensures forall id <- region | a.v.mods[id].enabled && !a.v.mods[id].isDefine ::
      id in b.v.mods && b.v.mods[id].defined
  {
    forall id | id in region && a.v.mods[id].enabled && !a.v.mods[id].isDefine
      ensures id in b.v.mods && b.v.mods[id].defined
    {
      RecordIn(a.v, {}, id);
      assert ModuleEvolves(a.v.mods[id], b.v.mods[id]);
      if !a.v.mods[id].defined {
        assert id in EnabledIn(a.v.mods, region) && id in a.v.enabledRegistry;
      }
    }
  }

  class Loader {
    var mods: map<Id, Module>
    var registry: set<Id>
    var enabledRegistry: set<Id>
    var defined: map<Id, Option<Value>>
    var requireCounter: nat
    var inCheckLoaded: bool
    var script: seq<Action>
    ghost var log: seq<Event>
    ghost var forced: set<(Id, nat)>

    ghost function V(): View
      reads this
    {
      View(mods, registry, defined, requireCounter, log, forced, enabledRegistry)
    }

    ghost function Now(): Moment
      reads this
    {
      Moment(V(), script)
    }

    constructor ()
      ensures Inv(V(), {}) && mods == map[] && log == [] && forced == {} && !inCheckLoaded
    {
      mods, registry, enabledRegistry, defined := map[], {}, {}, map[];
      requireCounter, inCheckLoaded, script := 1, false, [];
      log, forced := [], {};
    }

    /** One record is changed. */
    method PutRecord(id: Id, m: Module)
      requires id in mods && (m.enabled ==> mods[id].enabled)
      modifies this`mods
      ensures V() == Put(old(V()), id, m)
    {
      mods := mods[id := m];
    }

    ghost method PutForced(edge: (Id, nat))
      modifies this`forced
      ensures V() == old(V()).(forced := old(forced) + {edge})
    {
      forced := forced + {edge};
    }

    method Pop() returns (action: Action)
      requires script != []
      modifies this`script
      ensures action == old(script[0]) && script == old(script[1..])
      ensures Ran(old(Now()), Now())
    {
      RanPop(Now());
      action := script[0];
      script := script[1..];
    }

    /** Let foreign code run until it returns or throws. */
    method RunFactory() returns (result: Option<Value>, moduleExports: Option<Value>, threw: bool, ghost end: Action)
      requires Inv(V(), {})
      modifies this
      ensures Inv(V(), {}) && Ran(old(Now()), Now())
      ensures inCheckLoaded == old(inCheckLoaded) && (inCheckLoaded ==> forced == old(forced))
      ensures Calm(old(script)) ==> !threw
      ensures if threw then end.Throw? else end == Return(result, moduleExports)
      ensures |script| == |old(script)| ==> mods == old(mods)
      ensures old(script) != [] ==> Taken(old(script)[0], old(Now()), Now())
      decreases 2 * |script|, Unwired(mods), 0, Unannounced(mods), 1
    {
      RunActions();
      ghost var acted := Now();
      result, moduleExports, threw, end := LeaveFactory();
      if old(script) != [] { TakenStays(old(script)[0], old(Now()), acted, Now()); }
      RanTransitive(old(Now()), acted, Now());
    }

    method RunActions()
      requires Inv(V(), {})
      modifies this
      ensures Inv(V(), {}) && Ran(old(Now()), Now())
      ensures inCheckLoaded == old(inCheckLoaded) && (inCheckLoaded ==> forced == old(forced))
      ensures |script| == |old(script)| ==> mods == old(mods)
      ensures script != [] ==> script[0].Return? || script[0].Throw?
      ensures old(script) != [] ==> Taken(old(script)[0], old(Now()), Now())
      decreases 2 * |script|, Unwired(mods), 0, Unannounced(mods), 0
    {
      RanNothing(Now());
      while script != [] && !script[0].Return? && !script[0].Throw?
        invariant Inv(V(), {}) && Ran(old(Now()), Now())
        invariant inCheckLoaded == old(inCheckLoaded) && (inCheckLoaded ==> forced == old(forced))
        invariant if |script| == |old(script)| then Now() == old(Now())
          else Taken(old(script)[0], old(Now()), Now())
        decreases |script|
      {
        ghost var before := Now();
        var action := Pop();
        RanTransitive(old(Now()), before, Now());
        ghost var popped := Now();
        Perform(action);
        if before != old(Now()) { TakenStays(old(script)[0], old(Now()), before, Now()); }
        EvolvesTransitive(old(Now()).v.mods, popped.v.mods, Now().v.mods);
        PassedTransitive(old(Now()), popped, Now());
      }
    }

    method LeaveFactory() returns (result: Option<Value>, moduleExports: Option<Value>, threw: bool, ghost end: Action)
      requires script != [] ==> script[0].Return? || script[0].Throw?
      modifies this`script
      ensures Ran(old(Now()), Now())
      ensures Calm(old(script)) ==> !threw
      ensures end == if old(script) == [] then Return(None, None) else old(script)[0]
      ensures if threw then end.Throw? else end == Return(result, moduleExports)
    {
      RanNothing(Now());
      result, moduleExports, threw, end := None, None, false, Return(None, None);
      if script != [] {
        var action := Pop();
        end := action;
        if action.Return? {
          result, moduleExports := action.result, action.moduleExports;
        } else {
          threw := true;
        }
      }
    }

    /** The event loop: scripts arrive and timers fire, in any order, for as long as the run lasts. */
    method Run(actions: seq<Action>)
      requires Inv(V(), {}) && !inCheckLoaded && forall e <- forced :: OnCycle(mods, e)
      modifies this
      ensures Inv(V(), {}) && !inCheckLoaded && forall e <- forced :: OnCycle(mods, e)
      ensures Evolves(old(mods), mods) && old(log) <= log
      ensures actions != [] ==> Taken(actions[0], old(Now()), Now())
    {
      script := actions;
      ghost var start := Now();
      RanNothing(start);
      while script != []
        invariant Inv(V(), {}) && !inCheckLoaded && Ran(start, Now())
        invariant if |script| == |actions| then Now() == start else Taken(actions[0], start, Now())
        decreases |script|
      {
        ghost var before := Now();
        RunActions();
        if before != start { TakenStays(actions[0], start, before, Now()); }
        RanTransitive(start, before, Now());
        if script != [] {
          // Nothing is waiting for this return.
          ghost var acted := Now();
          var _ := Pop();
          RanTransitive(start, acted, Now());
        }
      }
      forall e | e in forced ensures OnCycle(mods, e) {
        if e in start.v.forced { OnCycleGrows(start.v.mods, mods, e); }
      }
    }

    /** One call that foreign code makes. */
    method Perform(action: Action)
      requires Inv(V(), {})
      modifies this
      ensures Inv(V(), {}) && Evolves(old(mods), mods) && Passed(old(Now()), Now())
      ensures inCheckLoaded == old(inCheckLoaded) && (inCheckLoaded ==> forced == old(forced))
      ensures Taken(action, old(Now()), Now())
      ensures action.Define? && (Named(action.name) in old(mods) ==> !old(mods)[Named(action.name)].enabled) ==>
        script == old(script) && log == old(log) && enabledRegistry == old(enabledRegistry)
      decreases 2 * |script| + 1, 1
    {
      RanNothing(Now());
      match action {
        case Define(name, deps, factory) =>
          if Named(name) !in defined {
            CallDefine(name, deps, factory);
          }
        case RequireCall(deps, factory) =>
          CallRequire(deps, factory);
        case CheckModule(id) =>
          if id in registry {
            RecordIn(V(), {}, id);
            Unsettle(V(), id);
            Check(id);
          }
        case CheckLoaded =>
          CheckLoaded({});
        case Return(_, _) =>
        case Throw =>
      }
    }

    /** `callGetModule`, for the definition of a module that has no value yet */
    method CallDefine(name: string, deps: seq<Dep>, factory: Factory)
      requires Inv(V(), {}) && Named(name) !in defined
      modifies this
      ensures Inv(V(), {}) && Evolves(old(mods), mods) && Passed(old(Now()), Now())
      ensures inCheckLoaded == old(inCheckLoaded) && (inCheckLoaded ==> forced == old(forced))
      ensures Taken(Define(name, deps, factory), old(Now()), Now())
      ensures (Named(name) in old(mods) ==> !old(mods)[Named(name)].enabled) ==>
        script == old(script) && log == old(log) && enabledRegistry == old(enabledRegistry)
      decreases 2 * |script| + 1, 1, 0
    {
      if Named(name) in mods { RecordIn(V(), {}, Named(name)); }
      GetModule(Named(name));
      ghost var got := Now();
      Init(Named(name), deps, factory, false);
      EvolvesTransitive(old(mods), got.v.mods, mods);
      PassedTransitive(old(Now()), got, Now());
    }

    /** `localRequire` with a list of dependencies: a module under a name made up for the call */
    method CallRequire(deps: seq<Dep>, factory: Factory)
      requires Inv(V(), {})
      modifies this
      ensures Inv(V(), {}) && Evolves(old(mods), mods) && Passed(old(Now()), Now())
      ensures inCheckLoaded == old(inCheckLoaded) && (inCheckLoaded ==> forced == old(forced))
      ensures Taken(RequireCall(deps, factory), old(Now()), Now())
      decreases 2 * |script| + 1, 1, 0
    {
      CounterGrows(V());
      requireCounter := requireCounter + 1;
      var id := Internal(requireCounter);
      GetModule(id);
      ghost var got := Now();
      Init(id, deps, factory, true);
      EvolvesTransitive(old(mods), got.v.mods, mods);
      PassedTransitive(old(Now()), got, Now());
    }

    /** The `define` or `require` call of a module has come: it gets its dependencies, once. */
    method Init(id: Id, deps: seq<Dep>, factory: Factory, enabled: bool)
      requires Inv(V(), {}) && id in mods
      modifies this
      ensures Inv(V(), {}) && Evolves(old(mods), mods) && Passed(old(Now()), Now())
      ensures inCheckLoaded == old(inCheckLoaded) && (inCheckLoaded ==> forced == old(forced))
      ensures old(mods[id]).inited ==> Now() == old(Now())
      ensures !old(mods[id]).inited ==>
        id in mods && mods[id].inited && mods[id].deps == deps && mods[id].factory == factory
      ensures !old(mods[id]).inited && enabled ==> mods[id].enabled && mods[id].wired == |deps|
      ensures !enabled && !old(mods[id]).enabled ==>
        script == old(script) && log == old(log) && enabledRegistry == old(enabledRegistry)
      decreases 2 * |script| + 1, 0
    {
      RanNothing(Now());
      if mods[id].inited {
        return;
      }
      SetInit(id, deps, factory);
      ghost var given := Now();
      if enabled || mods[id].enabled {
        Enable(id);
      } else {
        Check(id);
      }
      assert ModuleEvolves(given.v.mods[id], mods[id]);
      EvolvesTransitive(old(mods), given.v.mods, mods);
      PassedTransitive(old(Now()), given, Now());
    }

    method SetInit(id: Id, deps: seq<Dep>, factory: Factory)
      requires Inv(V(), {}) && id in mods && !mods[id].inited
      modifies this`mods
      ensures Inv(V(), {id}) && Evolves(old(mods), mods) && Passed(old(Now()), Now())
      ensures mods == old(mods)[id := old(mods[id]).(deps := deps, factory := factory, inited := true)]
      ensures mods[id].wired == 0 && !mods[id].enabling && !mods[id].defining && !mods[id].defined && !mods[id].error
    {
      RecordIn(V(), {}, id);
      InitStep(V(), id, deps, factory);
      PutRecord(id, mods[id].(deps := deps, factory := factory, inited := true));
      EvolvesOne(old(V()), id, mods[id]);
    }

    /** If no script is being fetched any more, what is still pending hangs on a cycle: break it for
        every `require` call. Nothing is done when the call comes from within such a search. */
    method CheckLoaded(ghost region: set<Id>)
      requires Inv(V(), {})
      requires region != {} ==> Completable(mods, region) && Calm(script)
      modifies this
      ensures Inv(V(), {}) && Ran(old(Now()), Now())
      ensures inCheckLoaded == old(inCheckLoaded) && (inCheckLoaded ==> forced == old(forced))
      ensures var allCame := forall id <- old(enabledRegistry) |
          old(mods)[id].isDefine && old(mods)[id].fetched && !old(mods)[id].error :: old(mods)[id].inited;
        allCame && !old(inCheckLoaded) ==>
          forall id <- region | old(mods)[id].enabled && !old(mods)[id].isDefine :: id in mods && mods[id].defined
      ensures forall id <- old(registry) |
        var m := old(mods)[id]; m.enabled && !m.error && m.isDefine && m.fetched && !m.inited :: Now() == old(Now())
      ensures old(inCheckLoaded) ==> Now() == old(Now())
      decreases 2 * |script| + 1, 0, 1
    {
      RanNothing(Now());
      if inCheckLoaded {
        return;
      }
      inCheckLoaded := true;
      var needCycleCheck, reqCalls := LookAround();
      if needCycleCheck {
        ghost var quiet := EnabledIn(mods, region);
        ghost var start := Now();
        EnabledIsQuiet(V(), region);
        BreakCycles(reqCalls, quiet);
        RequiresDone(start, Now(), region);
      }
      inCheckLoaded := false;
    }

    /** The state of all enabled modules: the `require` calls among them, and whether none of them has
        been asked for without its `define` call having come. */
    method LookAround() returns (needCycleCheck: bool, reqCalls: set<Id>)
      requires enabledRegistry <= mods.Keys
      ensures needCycleCheck <==> forall id <- enabledRegistry |
        mods[id].enabled && !mods[id].error && mods[id].isDefine && mods[id].fetched :: mods[id].inited
      ensures reqCalls <= enabledRegistry
      ensures forall id <- enabledRegistry :: id in reqCalls <==> mods[id].enabled && !mods[id].isDefine
    {
      needCycleCheck, reqCalls := true, {};
      var rest := enabledRegistry;
      while rest != {}
        invariant rest <= enabledRegistry && reqCalls <= enabledRegistry - rest
        invariant needCycleCheck <==> forall id <- enabledRegistry - rest |
          mods[id].enabled && !mods[id].error && mods[id].isDefine && mods[id].fetched :: mods[id].inited
        invariant forall id <- enabledRegistry - rest :: id in reqCalls <==> mods[id].enabled && !mods[id].isDefine
        decreases rest
      {
        var id :| id in rest;
        rest := rest - {id};
        var m := mods[id];
        if m.enabled {
          if !m.isDefine {
            reqCalls := reqCalls + {id};
          }
          if !m.error && !m.inited && m.fetched && m.isDefine {
            needCycleCheck := false;
          }
        }
      }
    }

    method BreakCycles(reqCalls: set<Id>, ghost region: set<Id>)
      requires Inv(V(), {}) && reqCalls <= mods.Keys && inCheckLoaded
      requires Completing(Now(), region, {})
      modifies this
      ensures Inv(V(), {}) && Ran(old(Now()), Now()) && inCheckLoaded
      ensures AllDefined(mods, region * reqCalls)
      decreases 2 * |script| + 1, 0, 0
    {
      ghost var start := Now();
      RanNothing(start);
      var rest := reqCalls;
      while rest != {}
        invariant Inv(V(), {}) && Ran(start, Now()) && rest <= reqCalls && inCheckLoaded
        invariant Completing(Now(), region, {})
        invariant AllDefined(mods, region * (reqCalls - rest))
        decreases rest
      {
        ghost var before := Now();
        var id :| id in rest;
        rest := rest - {id};
        var _, _ := BreakCycle(id, {}, {}, region);
        RanTransitive(start, before, Now());
        forall x | x in region * (reqCalls - rest) ensures x in mods && mods[x].defined {
          if x != id { assert ModuleEvolves(before.v.mods[x], mods[x]); }
        }
      }
      assert reqCalls - rest == reqCalls;
    }

    method DefineDep(id: Id, i: nat, value: Option<Value>)
      requires Inv(V(), {id}) && id in mods && i < mods[id].wired && i < |mods[id].deps| && mods[id].deps[i].On?
      requires i !in mods[id].matched && (id, i) !in forced ==>
        var d := mods[id].deps[i].Target();
        d in mods && mods[d].defined && d in defined && value == defined[d]
      modifies this`mods
      ensures Inv(V(), {id}) && Ran(old(Now()), Now())
      ensures mods.Keys == old(mods.Keys) && i in mods[id].matched
      ensures mods[id] == if i in old(mods[id]).matched then old(mods[id]) else Matched(old(mods[id]), i, value)
      ensures forall x <- mods | x != id :: mods[x] == old(mods)[x]
      ensures Unwired(mods) == Unwired(old(mods)) && Unannounced(mods) == Unannounced(old(mods))
    {
      RanNothing(Now());
      if i !in mods[id].matched {
        MatchDep(id, i, value);
      }
    }

    method MatchDep(id: Id, i: nat, value: Option<Value>)
      requires Inv(V(), {id}) && id in mods && i in mods[id].Pending()
      requires (id, i) !in forced ==>
        var d := mods[id].deps[i].Target();
        d in mods && mods[d].defined && d in defined && value == defined[d]
      modifies this`mods
      ensures Inv(V(), {id}) && Ran(old(Now()), Now())
      ensures mods.Keys == old(mods.Keys) && mods[id] == Matched(old(mods[id]), i, value)
      ensures forall x <- mods | x != id :: mods[x] == old(mods)[x]
      ensures Unwired(mods) == Unwired(old(mods)) && Unannounced(mods) == Unannounced(old(mods))
    {
      DefineStep(Now(), id, i, value);
      PutRecord(id, Matched(mods[id], i, value));
    }

    /** Define the module if nothing holds it back; unless it is being defined already. */
    method Check(id: Id)
      requires Inv(V(), {id}) && id in mods
      requires var m := mods[id]; m.inited && m.enabled && !m.enabling ==> m.wired == |m.deps|
      modifies this
      ensures Inv(V(), {}) && Ran(old(Now()), Now())
      ensures inCheckLoaded == old(inCheckLoaded) && (inCheckLoaded ==> forced == old(forced))
      ensures |script| == |old(script)| ==> mods.Keys == old(mods.Keys)
      ensures var m := old(mods[id]);
        !m.enabled || m.enabling || m.error || m.defining || m.defined || (m.inited && m.depCount > 0) ==>
          Now() == old(Now())
      ensures var m := old(mods[id]); m.enabled && !m.enabling && !m.inited ==>
        Now() == old(Now()).(v := Put(old(V()), id, m.(fetched := true)))
      decreases 2 * |script|, Unwired(mods), 0, Unannounced(mods), 6
    {
      RanNothing(Now());
      RecordIn(V(), {id}, id);
      var m := mods[id];
      if !m.enabled || m.enabling {
        Settle(V(), id);
      } else if !m.inited {
        // The script tag is added; the module's `define` call will come from outside.
        FlagStep(V(), {id}, id, m.(fetched := true));
        PutRecord(id, m.(fetched := true));
        RanUpdate(old(Now()), Now(), id);
        assert {id} - {id} == {};
      } else if m.error || m.defining {
        Settle(V(), id);
      } else if m.depCount < 1 && !m.defined {
        var _ := DefineNow(id);
      } else {
        Settle(V(), id);
      }
    }

    /** The part of `check` between setting `defining` and announcing the module. How the factory ends
        decides what becomes of it. */
    method DefineNow(id: Id) returns (ghost end: Action)
      requires Inv(V(), {id}) && id in mods
      requires var m := mods[id];
        m.inited && m.enabled && !m.enabling && m.wired == |m.deps| && !m.error && !m.defining && m.depCount < 1
          && !m.defined
      modifies this
      ensures Inv(V(), {}) && Ran(old(Now()), Now())
      ensures inCheckLoaded == old(inCheckLoaded) && (inCheckLoaded ==> forced == old(forced))
      ensures |script| == |old(script)| ==> mods.Keys == old(mods.Keys)
      ensures id in mods
      ensures Throws(old(mods[id]), end) ==> mods[id].error && !mods[id].defined
      ensures !Throws(old(mods[id]), end) ==> mods[id].defined && Exported(old(mods[id]), end, mods[id].exports)
      decreases 2 * |script|, Unwired(mods), 0, Unannounced(mods), 5
    {
      ghost var start := Now();
      RecordIn(V(), {id}, id);
      var exports, threw;
      exports, threw, end := Start(id);
      Conclude(id, exports, threw, start);
    }

    /** The factory has ended: the module fails, or is completed and announced. */
    method Conclude(id: Id, exports: Option<Value>, threw: bool, ghost start: Moment)
      requires Inv(V(), {}) && id in mods && Working(mods[id]) && mods[id].depCount == 0
      requires mods[id].factory.Function? ==> HasStarted(id, log)
      requires RanBut(start, Now(), id) && id in start.v.mods && !start.v.mods[id].Busy()
      requires (Calm(start.script) ==> !threw)
      modifies this
      ensures Inv(V(), {}) && Ran(start, Now()) && |script| <= |old(script)|
      ensures inCheckLoaded == old(inCheckLoaded) && (inCheckLoaded ==> forced == old(forced))
      ensures |script| == |old(script)| ==> mods.Keys == old(mods.Keys)
      ensures id in mods
      ensures if threw then mods[id].error && !mods[id].defined else mods[id].defined && mods[id].exports == exports
      decreases 2 * |script|, Unwired(mods), 0, Unannounced(mods), 4
    {
      ghost var executed := Now();
      if threw {
        Fail(id);
        EvolvesButTransitive(start.v.mods, executed.v.mods, Now().v.mods, id);
        FailedPassed(start, executed, Now());
      } else {
        Finish(id, exports);
        RanButTransitive(start, executed, Now(), id);
      }
      RanAgain(start, Now(), id);
    }

    method Start(id: Id) returns (exports: Option<Value>, threw: bool, ghost end: Action)
      requires Inv(V(), {id}) && id in mods
      requires var m := mods[id];
        m.inited && m.enabled && !m.enabling && m.wired == |m.deps| && !m.error && !m.defining && m.depCount < 1
          && !m.defined
      modifies this
      ensures Inv(V(), {}) && RanBut(old(Now()), Now(), id)
      ensures inCheckLoaded == old(inCheckLoaded) && (inCheckLoaded ==> forced == old(forced))
      ensures |script| == |old(script)| ==> mods.Keys == old(mods.Keys) && Unannounced(mods) == Unannounced(old(mods))
      ensures Calm(old(script)) ==> !threw
      ensures id in mods && Working(mods[id]) && mods[id].depCount == 0
      ensures mods[id].factory.Function? ==> HasStarted(id, log)
      ensures threw <==> Throws(old(mods[id]), end)
      ensures !threw ==> Exported(old(mods[id]), end, exports)
      decreases 2 * |script|, Unwired(mods), 0, Unannounced(mods), 3
    {
      ghost var start := Now();
      SetDefining(id);
      ghost var working := Now();
      exports, threw, end := Execute(id);
      RanButTransitive(start, working, Now(), id);
      StillWorking(working, Now(), id);
      WaitsForNothing(V(), id, working.v.mods[id]);
    }

    /** `defining = true` */
    method SetDefining(id: Id)
      requires Inv(V(), {id}) && id in mods
      requires var m := mods[id];
        m.inited && m.enabled && !m.enabling && m.wired == |m.deps| && !m.error && !m.defining && m.depCount < 1
          && !m.defined
      modifies this`mods
      ensures Inv(V(), {}) && RanBut(old(Now()), Now(), id) && mods == old(mods)[id := old(mods[id]).(defining := true)]
      ensures mods[id].Consistent() && !HasStarted(id, log)
      ensures Unwired(mods) == Unwired(old(mods)) && Unannounced(mods) == Unannounced(old(mods))
    {
      RecordIn(V(), {id}, id);
      NotStartedYet(V(), {id}, id);
      assert mods[id].(defining := true).Pending() == mods[id].Pending();
      FlagStep(V(), {id}, id, mods[id].(defining := true));
      assert {id} - {id} == {};
      PutRecord(id, mods[id].(defining := true));
      RanUpdate(old(Now()), Now(), id);
    }

    /** The factory threw: the module keeps the error, and is never defined. */
    method Fail(id: Id)
      requires Inv(V(), {}) && id in mods && Working(mods[id])
      modifies this`mods
      ensures Inv(V(), {}) && EvolvesBut(old(mods), mods, id) && Grows(old(mods), mods) && id in mods
      ensures !mods[id].Busy()
      ensures mods == old(mods)[id := old(mods[id]).(error := true)] && Unwired(mods) == Unwired(old(mods))
    {
      RecordIn(V(), {}, id);
      FlagStep(V(), {}, id, mods[id].(error := true));
      PutRecord(id, mods[id].(error := true));
      assert {} - {id} == {};
      forall x | x in old(mods) && x != id ensures ModuleEvolves(old(mods)[x], mods[x]) {}
    }

    method Finish(id: Id, exports: Option<Value>)
      requires Inv(V(), {}) && id in mods && Working(mods[id]) && mods[id].depCount == 0
      requires mods[id].factory.Function? ==> HasStarted(id, log)
      modifies this
      ensures Inv(V(), {}) && RanBut(old(Now()), Now(), id) && id in mods && !mods[id].Busy()
      ensures mods[id].defined && mods[id].exports == exports
      ensures inCheckLoaded == old(inCheckLoaded) && (inCheckLoaded ==> forced == old(forced))
      ensures |script| == |old(script)| ==> mods.Keys == old(mods.Keys)
      decreases 2 * |script|, Unwired(mods), 0, Unannounced(mods), 3
    {
      ghost var start := Now();
      RecordIn(V(), {}, id);
      Complete(id, exports);
      ghost var completed := Now();
      Announce(id);
      RanButTransitive(start, completed, Now(), id);
    }

    /** Call the factory, or take a literal value; then see what the module exports. */
    method Execute(id: Id) returns (exports: Option<Value>, threw: bool, ghost end: Action)
      requires Inv(V(), {}) && id in mods && Working(mods[id]) && !HasStarted(id, log)
      modifies this
      ensures Inv(V(), {}) && Ran(old(Now()), Now())
      ensures inCheckLoaded == old(inCheckLoaded) && (inCheckLoaded ==> forced == old(forced))
      ensures Calm(old(script)) ==> !threw
      ensures |script| == |old(script)| ==> mods == old(mods)
      ensures old(mods[id]).factory.Function? ==> HasStarted(id, log)
      ensures threw <==> Throws(old(mods[id]), end)
      ensures !threw ==> Exported(old(mods[id]), end, exports)
      decreases 2 * |script|, Unwired(mods), 0, Unannounced(mods), 2
    {
      RanNothing(Now());
      exports, threw, end := None, false, Return(None, None);
      if mods[id].factory.Literal? {
        exports := mods[id].factory.value;
      } else {
        StartStep(V(), id);
        log := log + [Started(id, mods[id].depExports)];
        assert log[|old(log)|].Started?;
        ghost var started := Now();
        var result, moduleExports;
        result, moduleExports, threw, end := RunFactory();
        assert log[|old(log)|] == started.v.log[|old(log)|];
        RanTransitive(old(Now()), started, Now());
        StillWorking(started, Now(), id);
        exports := ExportsOf(mods[id], result, moduleExports);
      }
    }

    /** Complete the module: it leaves the registry with its exports. */
    method Complete(id: Id, exports: Option<Value>)
      requires Inv(V(), {}) && id in mods
      requires var m := mods[id];
        m.defining && !m.enabling && !m.error && !m.defined && m.wired == |m.deps| && m.depCount == 0
      requires mods[id].factory.Function? ==> HasStarted(id, log)
      modifies this
      ensures V() == CompleteView(old(V()), id, exports)
      ensures Inv(V(), {}) && RanBut(old(Now()), Now(), id)
      ensures script == old(script) && inCheckLoaded == old(inCheckLoaded)
      ensures Unwired(mods) == Unwired(old(mods)) && Unannounced(mods) == Unannounced(old(mods)) - {id}
      ensures mods.Keys == old(mods.Keys) && mods[id].defined && mods[id].exports == exports
      ensures !mods[id].defineEmitComplete && forced == old(forced)
    {
      CompleteStep(V(), id, exports);
      RecordIn(V(), {}, id);
      CompleteRan(Now(), id, exports);
      CompleteSets(V(), id, exports);
      SetComplete(id, exports);
    }

    method SetComplete(id: Id, exports: Option<Value>)
      requires id in mods
      modifies this
      ensures V() == CompleteView(old(V()), id, exports) && script == old(script) && inCheckLoaded == old(inCheckLoaded)
    {
      mods := mods[id := Completed(mods[id], exports)];
      registry := registry - {id};
      enabledRegistry := enabledRegistry - {id};
      if mods[id].isDefine {
        defined := defined[id := exports];
        log := log + [Defined(id, exports)];
      }
    }

    /** `emit('defined', exports)`: tell every listener, and remember that all of them know. */
    method Announce(id: Id)
      requires Inv(V(), {}) && id in mods
      requires mods[id].defined && !mods[id].defineEmitComplete
      modifies this
      ensures Inv(V(), {}) && RanBut(old(Now()), Now(), id) && id in mods && !mods[id].Busy()
      ensures mods[id].defineEmitComplete && mods[id].listeners == old(mods[id]).listeners
      ensures Told(mods, id, |mods[id].listeners|)
      ensures inCheckLoaded == old(inCheckLoaded) && (inCheckLoaded ==> forced == old(forced))
      ensures |script| == |old(script)| ==> mods.Keys == old(mods.Keys)
      decreases 2 * |script|, Unwired(mods), 0, Unannounced(mods), 10
    {
      ghost var start := Now();
      TellAll(id);
      ghost var told := Now();
      Seal(id);
      RanThenBut(start, told, Now(), id);
    }

    method TellAll(id: Id)
      requires Inv(V(), {}) && id in mods
      requires mods[id].defined && !mods[id].defineEmitComplete
      modifies this
      ensures Inv(V(), {}) && Ran(old(Now()), Now()) && id in mods
      ensures mods[id].defined && mods[id].listeners == old(mods[id]).listeners && Told(mods, id, |mods[id].listeners|)
      ensures inCheckLoaded == old(inCheckLoaded) && (inCheckLoaded ==> forced == old(forced))
      ensures |script| == |old(script)| ==> mods.Keys == old(mods.Keys)
      decreases 2 * |script|, Unwired(mods), 0, Unannounced(mods), 9
    {
      ghost var start := Now();
      RanNothing(start);
      var k := 0;
      while k < |mods[id].listeners|
        invariant Inv(V(), {}) && Ran(start, Now()) && id in mods
        invariant inCheckLoaded == old(inCheckLoaded) && (inCheckLoaded ==> forced == old(forced))
        invariant |script| == |old(script)| ==> mods.Keys == old(mods.Keys)
        invariant mods[id].defined && !mods[id].defineEmitComplete && mods[id].listeners == old(mods[id]).listeners
        invariant 0 <= k <= |mods[id].listeners| && Told(mods, id, k)
        decreases |mods[id].listeners| - k
      {
        ghost var before := Now();
        if |script| == |old(script)| { UnannouncedShrinks(old(mods), mods); }
        NotifyNext(id, k);
        RanTransitive(start, before, Now());
        k := k + 1;
      }
    }

    method Seal(id: Id)
      requires Inv(V(), {}) && id in mods && mods[id].defined && Told(mods, id, |mods[id].listeners|)
      modifies this`mods
      ensures Inv(V(), {}) && RanBut(old(Now()), Now(), id)
      ensures mods.Keys == old(mods.Keys) && !mods[id].Busy() && mods[id].defineEmitComplete
      ensures mods[id].listeners == old(mods[id]).listeners && Told(mods, id, |mods[id].listeners|)
    {
      SealStep(Now(), id);
      PutRecord(id, mods[id].(defineEmitComplete := true));
    }

    method NotifyNext(id: Id, k: nat)
      requires Inv(V(), {}) && id in mods && k < |mods[id].listeners|
      requires mods[id].defined && !mods[id].defineEmitComplete && Told(mods, id, k)
      modifies this
      ensures Inv(V(), {}) && Ran(old(Now()), Now())
      ensures inCheckLoaded == old(inCheckLoaded) && (inCheckLoaded ==> forced == old(forced))
      ensures |script| == |old(script)| ==> mods.Keys == old(mods.Keys)
      ensures id in mods && mods[id].defined && !mods[id].defineEmitComplete
      ensures mods[id].listeners == old(mods[id]).listeners && Told(mods, id, k + 1)
      decreases 2 * |script|, Unwired(mods), 0, Unannounced(mods), 8
    {
      ghost var before := Now();
      RecordIn(V(), {}, id);
      Notify(id, k);
      StillWorking(before, Now(), id);
      StillTold(before.v.mods, mods, id, k);
    }

    /** One listener: the dependency is met, and its module may now be ready. */
    method Notify(id: Id, k: nat)
      requires Inv(V(), {}) && id in mods && k < |mods[id].listeners|
      requires mods[id].defined && !mods[id].defineEmitComplete
      modifies this
      ensures Inv(V(), {}) && Ran(old(Now()), Now())
      ensures inCheckLoaded == old(inCheckLoaded) && (inCheckLoaded ==> forced == old(forced))
      ensures |script| == |old(script)| ==> mods.Keys == old(mods.Keys)
      ensures var (x, i) := old(mods[id]).listeners[k]; x in mods && i in mods[x].matched
      decreases 2 * |script|, Unwired(mods), 0, Unannounced(mods), 7
    {
      var x, i := Meet(id, k);
      ghost var met := Now();
      Check(x);
      RanTransitive(old(Now()), met, Now());
      assert ModuleEvolves(met.v.mods[x], mods[x]);
    }

    /** The dependency that a listener stands for gets the value. */
    method Meet(id: Id, k: nat) returns (x: Id, i: nat)
      requires Inv(V(), {}) && id in mods && k < |mods[id].listeners| && mods[id].defined
      modifies this`mods
      ensures (x, i) == old(mods[id]).listeners[k] && x in mods && i in mods[x].matched
      ensures Inv(V(), {x}) && Ran(old(Now()), Now()) && mods.Keys == old(mods.Keys)
      ensures mods[x].inited && mods[x].enabled && !mods[x].enabling ==> mods[x].wired == |mods[x].deps|
      ensures Unwired(mods) == Unwired(old(mods)) && Unannounced(mods) == Unannounced(old(mods))
    {
      ListenerReady(V(), id, k);
      var listener := mods[id].listeners[k];
      x, i := listener.0, listener.1;
      DefineDep(x, i, mods[id].exports);
    }
  
    /** A module whose `define` call has not come yet has no dependencies to go through. */
    method EnableEmpty(id: Id)
      requires Inv(V(), {id}) && id in mods && !mods[id].inited
      modifies this
      ensures Inv(V(), {}) && Ran(old(Now()), Now()) && id in mods && mods[id].enabled
      ensures inCheckLoaded == old(inCheckLoaded) && (inCheckLoaded ==> forced == old(forced))
      decreases 2 * |script|, Unwired(mods), 1
    {
      ghost var start := Now();
      EnableFlag(id);
      ghost var enabled := Now();
      Check(id);
      assert ModuleEvolves(enabled.v.mods[id], mods[id]);
      RanTransitive(start, enabled, Now());
    }

    method EnableFlag(id: Id)
      requires Inv(V(), {id}) && id in mods && !mods[id].inited
      modifies this`mods, this`enabledRegistry
      ensures Inv(V(), {id}) && Ran(old(Now()), Now()) && mods.Keys == old(mods.Keys)
      ensures mods[id] == old(mods[id]).(enabled := true)
    {
      RecordIn(V(), {id}, id);
      var m := mods[id];
      assert m.(enabled := true).Pending() == m.Pending();
      FlagStep(V(), {id}, id, m.(enabled := true));
      assert {id} + {id} == {id};
      SetEnabled(id, false);
      RanUpdate(old(Now()), Now(), id);
    }

    method SetEnabled(id: Id, enabling: bool)
      requires id in mods && EnabledOk(V()) && id in registry
      modifies this`mods, this`enabledRegistry
      ensures V() == Put(old(V()), id, old(mods[id]).(enabled := true, enabling := enabling))
    {
      assert id in enabledRegistry ==> enabledRegistry + {id} == enabledRegistry;
      enabledRegistry := enabledRegistry + {id};
      mods := mods[id := mods[id].(enabled := true, enabling := enabling)];
    }

    method BeginEnabling(id: Id)
      requires Inv(V(), {id}) && id in mods
      requires var m := mods[id]; m.inited && m.wired == 0 && !m.enabling && !m.defining && !m.defined && !m.error
      modifies this
      ensures Inv(V(), {}) && RanBut(old(Now()), Now(), id)
      ensures id in mods && mods[id] == old(mods[id]).(enabled := true, enabling := true) && Enabling(mods[id])
      ensures script == old(script) && inCheckLoaded == old(inCheckLoaded) && forced == old(forced)
    {
      RecordIn(V(), {id}, id);
      EnablingRecord(mods[id]);
      FlagStep(V(), {id}, id, mods[id].(enabled := true, enabling := true));
      assert {id} - {id} == {};
      SetEnabled(id, true);
      RanUpdate(old(Now()), Now(), id);
    }

    method EndEnabling(id: Id)
      requires Inv(V(), {}) && id in mods && Enabling(mods[id]) && mods[id].wired == |mods[id].deps|
      requires Linked(mods, id, mods[id].wired)
      modifies this
      ensures Inv(V(), {}) && RanBut(old(Now()), Now(), id) && id in mods && !mods[id].Busy()
      ensures mods[id].enabled && mods[id].wired == |mods[id].deps| && Linked(mods, id, mods[id].wired)
      ensures inCheckLoaded == old(inCheckLoaded) && (inCheckLoaded ==> forced == old(forced))
      decreases 2 * |script|, Unwired(mods), 1
    {
      ghost var start := Now();
      SetEnabling(id);
      ghost var ended := Now();
      Check(id);
      RanButTransitive(start, ended, Now(), id);
      assert ModuleEvolves(ended.v.mods[id], mods[id]);
      LinkedGrows(ended.v.mods, mods, id, |mods[id].deps|);
      RecordIn(V(), {}, id);
    }

    /** `enabling = false` */
    method SetEnabling(id: Id)
      requires Inv(V(), {}) && id in mods && Enabling(mods[id]) && mods[id].wired == |mods[id].deps|
      requires Linked(mods, id, mods[id].wired)
      modifies this`mods
      ensures Inv(V(), {id}) && RanBut(old(Now()), Now(), id)
      ensures mods == old(mods)[id := old(mods[id]).(enabling := false)] && !mods[id].Busy()
      ensures Linked(mods, id, mods[id].wired)
      ensures mods[id].inited
    {
      RecordIn(V(), {}, id);
      EnabledRecord(mods[id]);
      FlagStep(V(), {}, id, mods[id].(enabling := false));
      assert {} + {id} == {id};
      PutRecord(id, mods[id].(enabling := false));
      RanUpdate(old(Now()), Now(), id);
      LinkedGrows(old(mods), mods, id, mods[id].wired);
    }

    /** The next dependency: wire it, and enable its module if there is one that needs it. */
    method EnableDep(id: Id)
      requires Inv(V(), {}) && id in mods && Enabling(mods[id]) && mods[id].inited && mods[id].wired < |mods[id].deps|
      requires Linked(mods, id, mods[id].wired)
      modifies this
      ensures Inv(V(), {}) && RanBut(old(Now()), Now(), id)
      ensures inCheckLoaded == old(inCheckLoaded) && (inCheckLoaded ==> forced == old(forced))
      ensures id in mods && Enabling(mods[id]) && mods[id].inited
      ensures mods[id].deps == old(mods[id]).deps && mods[id].wired == old(mods[id]).wired + 1
      ensures Linked(mods, id, mods[id].wired)
      decreases 2 * |script|, Unwired(mods) + {id}, 0
    {
      ghost var start := Now();
      var dep := mods[id].deps[mods[id].wired];
      Wire(id);
      ghost var wired := Now();
      if dep.On? {
        EnableTarget(id, dep.Target(), mods[id].wired - 1);
        RanButTransitive(start, wired, Now(), id);
      }
      LastLinked(V(), id);
    }

    /** The module of a dependency is enabled if there is one that waits for it. */
    method EnableTarget(id: Id, d: Id, ghost n: nat)
      requires Inv(V(), {}) && id in mods && Enabling(mods[id]) && mods[id].inited && Linked(mods, id, n)
      modifies this
      ensures Inv(V(), {}) && Ran(old(Now()), Now())
      ensures inCheckLoaded == old(inCheckLoaded) && (inCheckLoaded ==> forced == old(forced))
      ensures id in mods && Enabling(mods[id]) && mods[id].inited && Linked(mods, id, n)
      ensures mods[id].deps == old(mods[id]).deps && mods[id].wired == old(mods[id]).wired
      ensures d in registry ==> mods[d].enabled
      decreases 2 * |script|, Unwired(mods) + (if d in mods && mods[d].inited && !mods[d].enabled then {d} else {}), 5
    {
      RanNothing(Now());
      if d in registry && !mods[d].enabled {
        EnableOther(id, d, n);
      }
    }

    /** A module that another one needs is enabled, which leaves the other one in the middle of `enable`. */
    method EnableOther(id: Id, d: Id, ghost n: nat)
      requires Inv(V(), {}) && id in mods && Enabling(mods[id]) && mods[id].inited && Linked(mods, id, n)
      requires d in registry && !mods[d].enabled
      modifies this
      ensures Inv(V(), {}) && Ran(old(Now()), Now())
      ensures inCheckLoaded == old(inCheckLoaded) && (inCheckLoaded ==> forced == old(forced))
      ensures id in mods && Enabling(mods[id]) && mods[id].inited && Linked(mods, id, n)
      ensures mods[id].deps == old(mods[id]).deps && mods[id].wired == old(mods[id]).wired && d in mods
      ensures mods[d].enabled
      decreases 2 * |script|, Unwired(mods) + (if mods[d].inited then {d} else {}), 4
    {
      RecordIn(V(), {}, d);
      Unsettle(V(), d);
      Enable(d);
      StillEnabling(old(Now()), Now(), id, n);
    }

    /** `require`, `exports` and `module` are not loaded: their handlers give the value. */
    method WireSpecial(id: Id)
      requires Inv(V(), {}) && id in mods && Enabling(mods[id]) && mods[id].inited
      requires mods[id].wired < |mods[id].deps| && !mods[id].deps[mods[id].wired].On?
      requires Linked(mods, id, mods[id].wired)
      modifies this
      ensures Inv(V(), {}) && RanBut(old(Now()), Now(), id)
      ensures id in mods && Enabling(mods[id]) && mods[id].inited
      ensures mods[id].deps == old(mods[id]).deps && mods[id].wired == old(mods[id]).wired + 1
      ensures Linked(mods, id, mods[id].wired - 1)
      ensures inCheckLoaded == old(inCheckLoaded) && forced == old(forced)
      ensures var m, n := old(mods[id]), mods[id];
        && m.wired in n.depExports
        && var dep, given := m.deps[m.wired], n.depExports[m.wired];
        && n.depExports == m.depExports[m.wired := given]
        && (dep.RequireDep? ==> given == Some(LocalRequire(id)) && n.exports == m.exports)
        && (dep.ModuleDep? ==> given == Some(ModuleObject(id)) && n.exports == m.exports)
        && (dep.ExportsDep? && !m.isDefine ==> given == None && n.exports == m.exports)
        && (dep.ExportsDep? && m.isDefine ==> given.Some? && n.usingExports && n.exports == given)
        && (dep.ExportsDep? && m.isDefine && m.exports.Some? ==> given == m.exports)
        && (dep.ExportsDep? && m.isDefine && m.exports.None? ==>
              given == Some(ExportsObject(id)) && id in defined && defined[id] == given)
    {
      SpecialStep(Now(), id);
      SetSpecial(id);
      LinkedGrows(old(mods), mods, id, old(mods[id]).wired);
    }

    method SetSpecial(id: Id)
      requires id in mods && mods[id].wired < |mods[id].deps| && !mods[id].deps[mods[id].wired].On?
      modifies this`mods, this`defined
      ensures V() == SpecialView(old(V()), id)
    {
      var m := mods[id];
      var dep := m.deps[m.wired];
      var (value, exports) := Handler(id, m, dep);
      var usingExports := m.usingExports || dep.ExportsDep?;
      mods := mods[id := WiredSpecial(m, value, exports, usingExports)];
      if dep.ExportsDep? && m.isDefine && m.exports.None? {
        defined := defined[id := exports];
      }
    }

    method WireDefined(id: Id)
      requires Inv(V(), {}) && id in mods && Enabling(mods[id]) && mods[id].inited
      requires mods[id].wired < |mods[id].deps| && mods[id].deps[mods[id].wired].On?
      requires var d := mods[id].deps[mods[id].wired].Target();
        d in defined && (d !in registry || mods[d].defineEmitComplete)
      requires Linked(mods, id, mods[id].wired)
      modifies this
      ensures Inv(V(), {}) && RanBut(old(Now()), Now(), id)
      ensures id in mods && Enabling(mods[id]) && mods[id].inited
      ensures mods[id].deps == old(mods[id]).deps && mods[id].wired == old(mods[id]).wired + 1
      ensures Linked(mods, id, mods[id].wired - 1)
      ensures inCheckLoaded == old(inCheckLoaded) && (inCheckLoaded ==> forced == old(forced))
      decreases 2 * |script|, Unwired(mods), 1
    {
      ghost var start := Now();
      MatchDefined(id);
      ghost var matched := Now();
      Unsettle(V(), id);
      Check(id);
      RanButTransitive(start, matched, Now(), id);
      RecordIn(start.v, {}, id);
      StillWorking(matched, Now(), id);
      LinkedGrows(matched.v.mods, mods, id, mods[id].wired - 1);
    }

    method MatchDefined(id: Id)
      requires Inv(V(), {}) && id in mods && Enabling(mods[id]) && mods[id].inited
      requires mods[id].wired < |mods[id].deps| && mods[id].deps[mods[id].wired].On?
      requires var d := mods[id].deps[mods[id].wired].Target();
        d in defined && (d !in registry || mods[d].defineEmitComplete)
      requires Linked(mods, id, mods[id].wired)
      modifies this`mods
      ensures Inv(V(), {}) && RanBut(old(Now()), Now(), id)
      ensures id in mods && Enabling(mods[id]) && mods[id].inited
      ensures var m := old(mods[id]); mods == old(mods)[id := WiredDefined(m, defined[m.deps[m.wired].Target()])]
      ensures mods[id].deps == old(mods[id]).deps && mods[id].wired == old(mods[id]).wired + 1
      ensures Linked(mods, id, mods[id].wired - 1)
    {
      RecordIn(V(), {}, id);
      var m := mods[id];
      var d := m.deps[m.wired].Target();
      RecordIn(V(), {}, d);
      WireDefinedStep(V(), id);
      WiredDefinedRecord(m, defined[d]);
      PutRecord(id, WiredDefined(m, defined[d]));
      RanUpdate(old(Now()), Now(), id);
    }

    method WireListener(id: Id)
      requires Inv(V(), {}) && id in mods && Enabling(mods[id]) && mods[id].inited
      requires mods[id].wired < |mods[id].deps| && mods[id].deps[mods[id].wired].On?
      requires var d := mods[id].deps[mods[id].wired].Target();
        !(d in defined && (d !in registry || mods[d].defineEmitComplete))
      requires Linked(mods, id, mods[id].wired)
      modifies this
      ensures Inv(V(), {}) && RanBut(old(Now()), Now(), id)
      ensures id in mods && Enabling(mods[id]) && mods[id].inited
      ensures mods[id].deps == old(mods[id]).deps && mods[id].wired == old(mods[id]).wired + 1
      ensures Linked(mods, id, mods[id].wired - 1)
      ensures inCheckLoaded == old(inCheckLoaded) && forced == old(forced)
    {
      var d := mods[id].deps[mods[id].wired].Target();
      Register(id, d);
      ghost var got := Now();
      Listen(id);
      RanButTransitive(old(Now()), got, Now(), id);
    }

    /** The module of a dependency that has no value yet gets a record. */
    method Register(id: Id, d: Id)
      requires Inv(V(), {}) && id in mods && Enabling(mods[id]) && mods[id].inited && Linked(mods, id, mods[id].wired)
      requires d.Named? && !(d in defined && (d !in registry || mods[d].defineEmitComplete))
      modifies this
      ensures Inv(V(), {}) && RanBut(old(Now()), Now(), id) && d in registry
      ensures id in mods && Enabling(mods[id]) && mods[id].inited && Linked(mods, id, mods[id].wired)
      ensures mods[id].deps == old(mods[id]).deps && mods[id].wired == old(mods[id]).wired
      ensures inCheckLoaded == old(inCheckLoaded) && forced == old(forced)
    {
      GetModule(d);
      StillEnabling(old(Now()), Now(), id, old(mods[id]).wired);
    }

    method Listen(id: Id)
      requires Inv(V(), {}) && id in mods && Enabling(mods[id]) && mods[id].inited
      requires mods[id].wired < |mods[id].deps| && mods[id].deps[mods[id].wired].On?
      requires mods[id].deps[mods[id].wired].Target() in registry
      requires Linked(mods, id, mods[id].wired)
      modifies this`mods
      ensures Inv(V(), {}) && RanBut(old(Now()), Now(), id)
      ensures id in mods && Enabling(mods[id]) && mods[id].inited
      ensures mods[id].deps == old(mods[id]).deps && mods[id].wired == old(mods[id]).wired + 1
      ensures Linked(mods, id, mods[id].wired - 1)
      ensures var d := old(mods[id]).deps[old(mods[id]).wired].Target();
        d in mods && (id, old(mods[id]).wired) in mods[d].listeners && old(mods[id]).wired in mods[id].Pending()
    {
      ListenStep(Now(), id);
      mods := Listened(mods, id);
    }

    /** Make a record for a module that has none yet. */
    method GetModule(id: Id)
      requires Inv(V(), {}) && (id in mods && id !in registry ==> id.Named? && id !in defined)
      requires id.Internal? ==> id.n <= requireCounter
      modifies this
      ensures Inv(V(), {}) && Ran(old(Now()), Now())
      ensures id in registry && id in mods
      ensures mods == if id in old(registry) then old(mods) else old(mods)[id := NewModule(id)]
      ensures script == old(script) && inCheckLoaded == old(inCheckLoaded) && forced == old(forced)
      ensures defined == old(defined) && log == old(log) && enabledRegistry == old(enabledRegistry)
    {
      RanNothing(Now());
      if id !in registry {
        if id in mods { RecordIn(V(), {}, id); }
        NewModuleStep(V(), {}, id);
        registry := registry + {id};
        mods := mods[id := NewModule(id)];
      }
    }

    /** Turn one dependency name into a listener or, if its value is there already, into a value. */
    method Wire(id: Id)
      requires Inv(V(), {}) && id in mods && Enabling(mods[id]) && mods[id].inited && mods[id].wired < |mods[id].deps|
      requires Linked(mods, id, mods[id].wired)
      modifies this
      ensures Inv(V(), {}) && RanBut(old(Now()), Now(), id)
      ensures inCheckLoaded == old(inCheckLoaded) && (inCheckLoaded ==> forced == old(forced))
      ensures id in mods && Enabling(mods[id]) && mods[id].inited
      ensures mods[id].deps == old(mods[id]).deps && mods[id].wired == old(mods[id]).wired + 1
      ensures Linked(mods, id, mods[id].wired - 1)
      decreases 2 * |script|, Unwired(mods), 2
    {
      var dep := mods[id].deps[mods[id].wired];
      if !dep.On? {
        WireSpecial(id);
      } else {
        var d := dep.Target();
        if d in defined && (d !in registry || mods[d].defineEmitComplete) {
          WireDefined(id);
        } else {
          WireListener(id);
        }
      }
    }

    method EnableDeps(id: Id)
      requires Inv(V(), {}) && id in mods && Enabling(mods[id]) && mods[id].wired == 0
      modifies this
      ensures Inv(V(), {}) && RanBut(old(Now()), Now(), id)
      ensures inCheckLoaded == old(inCheckLoaded) && (inCheckLoaded ==> forced == old(forced))
      ensures id in mods && Enabling(mods[id]) && mods[id].wired == |mods[id].deps| && Linked(mods, id, mods[id].wired)
      decreases 2 * |script|, Unwired(mods) + (if mods[id].inited then {id} else {}), 1
    {
      ghost var start := Now();
      RecordIn(V(), {}, id);
      EvolvesForgets(mods, mods, id);
      var deps := mods[id].deps;
      var i := 0;
      while i < |deps|
        invariant 0 <= i <= |deps|
        invariant Inv(V(), {}) && RanBut(start, Now(), id)
        invariant inCheckLoaded == old(inCheckLoaded) && (inCheckLoaded ==> forced == old(forced))
        invariant id in mods && Enabling(mods[id]) && mods[id].deps == deps && mods[id].wired == i
        invariant Linked(mods, id, i)
        invariant |deps| > 0 ==> mods[id].inited
        invariant start.v.mods[id].inited == mods[id].inited
      {
        ghost var before := Now();
        EnableDep(id);
        RanButTransitive(start, before, Now(), id);
        i := i + 1;
      }
    }

    /** Wire and enable every dependency, then see whether the module is ready. */
    method Enable(id: Id)
      requires Inv(V(), {id}) && id in mods
      requires var m := mods[id]; m.wired == 0 && !m.enabling && !m.defining && !m.defined && !m.error
      modifies this
      ensures Inv(V(), {}) && Ran(old(Now()), Now())
      ensures id in mods && mods[id].enabled
      ensures old(mods[id]).inited ==> mods[id].wired == |mods[id].deps| && Linked(mods, id, mods[id].wired)
      ensures inCheckLoaded == old(inCheckLoaded) && (inCheckLoaded ==> forced == old(forced))
      decreases 2 * |script|, Unwired(mods) + (if mods[id].inited then {id} else {}), 3
    {
      ghost var start := Now();
      RecordIn(V(), {id}, id);
      if mods[id].inited {
        EnableAll(id);
        RanAgain(start, Now(), id);
      } else {
        EnableEmpty(id);
      }
    }

    /** Between `enabling = true` and the final check. */
    method EnableAll(id: Id)
      requires Inv(V(), {id}) && id in mods
      requires var m := mods[id]; m.inited && m.wired == 0 && !m.enabling && !m.defining && !m.defined && !m.error
      modifies this
      ensures Inv(V(), {}) && RanBut(old(Now()), Now(), id) && id in mods && !mods[id].Busy()
      ensures mods[id].enabled && mods[id].wired == |mods[id].deps| && Linked(mods, id, mods[id].wired)
      ensures inCheckLoaded == old(inCheckLoaded) && (inCheckLoaded ==> forced == old(forced))
      decreases 2 * |script|, Unwired(mods) + {id}, 2
    {
      ghost var start := Now();
      BeginEnabling(id);
      ghost var begun := Now();
      EnableDeps(id);
      RanButTransitive(start, begun, Now(), id);
      ghost var wired := Now();
      EndEnabling(id);
      RanButTransitive(start, wired, Now(), id);
    }

    /** One dependency of a module that the search is visiting. */
    method BreakEdge(id: Id, i: nat, traced: set<Id>, processed: set<Id>, ghost region: set<Id>)
      returns (traced': set<Id>, processed': set<Id>)
      requires Inv(V(), {}) && id in mods && inCheckLoaded && mods[id].inited && i < |mods[id].deps|
      requires id in traced && id !in processed && processed <= traced
      requires OnStack(mods, traced - processed, id)
      requires Completing(Now(), region, processed)
      modifies this
      ensures Inv(V(), {}) && Ran(old(Now()), Now()) && inCheckLoaded
      ensures |script| == |old(script)| ==> mods.Keys == old(mods.Keys)
      ensures traced <= traced' && processed <= processed' <= traced' && traced' - processed' == traced - processed
      ensures OnStack(mods, traced' - processed', id)
      ensures Completing(Now(), region, processed')
      ensures id in mods && mods[id].deps == old(mods[id]).deps && old(mods[id]).matched <= mods[id].matched
      ensures id in region && mods[id].deps[i].On? ==> i in mods[id].matched
      decreases 2 * |script|, Unwired(mods), 2, mods.Keys - traced, 2
    {
      ghost var start := Now();
      RanNothing(start);
      RecordIn(V(), {}, id);
      traced', processed' := traced, processed;
      var dep := mods[id].deps[i];
      if dep.On? && i < mods[id].wired && i !in mods[id].matched
        && dep.Target() in registry && dep.Target() !in processed {
        var d := dep.Target();
        if d in traced {
          Force(id, i);
          StillCompleting(start, Now(), region, processed);
        } else {
          StackGrows(mods, traced - processed, id, d);
          traced', processed' := BreakCycle(d, traced, processed, region);
        }
        StackEvolves(start.v.mods, mods, traced - processed, id);
        assert ModuleEvolves(start.v.mods[id], mods[id]);
      }
      if id in region && dep.On? {
        DefinedIsMatched(V(), region, id, i);
      }
    }

    /** The dependency gets what the table of values has for it, if there is anything. */
    method MatchByForce(id: Id, i: nat)
      requires Inv(V(), {}) && id in mods && i in mods[id].Pending()
      requires Reaches(mods, mods[id].deps[i].Target(), id)
      modifies this`mods, this`forced
      ensures Inv(V(), {id}) && Ran(old(Now()), Now())
      ensures mods.Keys == old(mods.Keys)
      ensures forced == old(forced) + {(id, i)}
      ensures var d := old(mods[id]).deps[i].Target();
        mods[id] == Matched(old(mods[id]), i, if d in old(defined) then old(defined)[d] else None)
      ensures var m := mods[id]; m.inited && m.enabled && !m.enabling ==> m.wired == |m.deps|
    {
      ghost var start := Now();
      MarkForced(id, i);
      ghost var marked := Now();
      var d := mods[id].deps[i].Target();
      MatchDep(id, i, if d in defined then defined[d] else None);
      RanTransitive(start, marked, Now());
    }

    ghost method MarkForced(id: Id, i: nat)
      requires Inv(V(), {}) && id in mods && i in mods[id].Pending()
      requires Reaches(mods, mods[id].deps[i].Target(), id)
      modifies this`forced
      ensures Inv(V(), {id}) && Ran(old(Now()), Now()) && forced == old(forced) + {(id, i)}
      ensures var m := mods[id]; m.inited && m.enabled && !m.enabling ==> m.wired == |m.deps|
    {
      ForcedStep(Now(), id, i);
      PutForced((id, i));
    }

    /** Pretend that a dependency on the way to itself has been defined. */
    method Force(id: Id, i: nat)
      requires Inv(V(), {}) && id in mods && i in mods[id].Pending() && inCheckLoaded
      requires Reaches(mods, mods[id].deps[i].Target(), id)
      modifies this
      ensures Inv(V(), {}) && Ran(old(Now()), Now()) && inCheckLoaded
      ensures |script| == |old(script)| ==> mods.Keys == old(mods.Keys)
      ensures id in mods && i in mods[id].matched
      decreases 2 * |script|, Unwired(mods), 1
    {
      ghost var start := Now();
      MatchByForce(id, i);
      ghost var met := Now();
      Check(id);
      RanTransitive(start, met, Now());
      assert ModuleEvolves(met.v.mods[id], mods[id]);
    }

    /** Force the pending dependencies of `id` that lead back into the search, deepest first. */
    method BreakCycle(id: Id, traced: set<Id>, processed: set<Id>, ghost region: set<Id>)
      returns (traced': set<Id>, processed': set<Id>)
      requires Inv(V(), {}) && id in mods && inCheckLoaded
      requires id !in traced && processed <= traced
      requires OnStack(mods, traced - processed, id)
      requires Completing(Now(), region, processed)
      modifies this
      ensures Inv(V(), {}) && Ran(old(Now()), Now()) && inCheckLoaded
      ensures |script| == |old(script)| ==> mods.Keys == old(mods.Keys)
      ensures traced <= traced' && processed <= processed' <= traced' && traced' - processed' == traced - processed
      ensures Completing(Now(), region, processed')
      ensures id in region ==> mods[id].defined
      decreases 2 * |script|, Unwired(mods), 2, mods.Keys - traced, 1
    {
      RanNothing(Now());
      if mods[id].error {
        return traced, processed;
      }
      ReachesSelf(mods, id);
      traced', processed' := VisitDeps(id, traced + {id}, processed, region);
      if id in region {
        AllMatchedIsDefined(V(), id);
      }
      calc {
        traced' - (processed' + {id});
        (traced' - processed') - {id};
        (traced + {id} - processed) - {id};
        traced - processed;
      }
      processed' := processed' + {id};
    }

    method VisitDeps(id: Id, traced: set<Id>, processed: set<Id>, ghost region: set<Id>)
      returns (traced': set<Id>, processed': set<Id>)
      requires Inv(V(), {}) && id in mods && inCheckLoaded
      requires id in traced && id !in processed && processed <= traced
      requires OnStack(mods, traced - processed, id)
      requires Completing(Now(), region, processed)
      modifies this
      ensures Inv(V(), {}) && Ran(old(Now()), Now()) && inCheckLoaded
      ensures |script| == |old(script)| ==> mods.Keys == old(mods.Keys)
      ensures traced <= traced' && processed <= processed' <= traced' && traced' - processed' == traced - processed
      ensures Completing(Now(), region, processed')
      ensures id in region ==> MatchedBelow(mods[id], |mods[id].deps|)
      decreases 2 * |script|, Unwired(mods), 2, mods.Keys - traced, 3
    {
      var deps := mods[id].deps;
      traced', processed' := traced, processed;
      ghost var start := Now();
      RanNothing(start);
      var i := 0;
      while i < |deps|
        invariant 0 <= i <= |deps|
        invariant Inv(V(), {}) && Ran(start, Now()) && inCheckLoaded && id in mods
        invariant |script| == |start.script| ==> mods.Keys == start.v.mods.Keys
        invariant traced <= traced' && processed <= processed' <= traced' && traced' - processed' == traced - processed
        invariant OnStack(mods, traced' - processed', id)
        invariant Completing(Now(), region, processed')
        invariant mods[id].deps == deps
        invariant id in region ==> MatchedBelow(mods[id], i)
      {
        ghost var before := Now();
        RecordIn(V(), {}, id);
        traced', processed' := BreakEdge(id, i, traced', processed', region);
        RanTransitive(start, before, Now());
        if id in region { MatchedNext(before.v.mods[id], mods[id], i); }
        i := i + 1;
      }
    }
  }

  /** A module in the middle of `enable`. */
  ghost predicate Enabling(m: Module) {
    m.enabled && m.enabling && !m.error && !m.defined && m.wired <= |m.deps|
  }

  /** The value of a special dependency, and the module's exports once it has been handed out. */
  function Handler(id: Id, m: Module, dep: Dep): (Option<Value>, Option<Value>)
    requires !dep.On?
  {
    match dep
    case RequireDep => (Some(LocalRequire(id)), m.exports)
    case ModuleDep => (Some(ModuleObject(id)), m.exports)
    case ExportsDep =>
      if !m.isDefine then (None, m.exports)
      else if m.exports.Some? then (m.exports, m.exports)
      else (Some(ExportsObject(id)), Some(ExportsObject(id)))
  }

  /** The factory was called, and threw. */
  ghost predicate Throws(m: Module, end: Action) {
    m.factory.Function? && end.Throw?
  }

  /** What a module exports after its factory has ended: a literal is its own value; after a call, what
      was set on `module.exports` in a module that asked for `module`; else what the factory
      returned; else, if it returned nothing, the `exports` object that had been handed out. */
  ghost predicate Exported(m: Module, end: Action, exports: Option<Value>) {
    if m.factory.Literal? then exports == m.factory.value
    else
      && end.Return?
      && var replaced := ModuleDep in m.deps && end.moduleExports.Some? && end.moduleExports != m.exports;
        && (m.isDefine && replaced ==> exports == end.moduleExports)
        && (end.result.Some? && !(m.isDefine && replaced) ==> exports == end.result)
        && (end.result.None? && !(m.isDefine && replaced) ==>
              exports == if m.isDefine && m.usingExports then m.exports else None)
  }

  /** A value set on `module.exports` wins over what the factory returns, and that over `exports`. */
  function ExportsOf(m: Module, result: Option<Value>, moduleExports: Option<Value>): Option<Value> {
    if m.isDefine && ModuleDep in m.deps && moduleExports.Some? && moduleExports != m.exports then moduleExports
    else if m.isDefine && result.None? && m.usingExports then m.exports
    else result
  }
}
