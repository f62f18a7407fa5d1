/**
 The loader's assignments that other modules depend on: wiring, defining and announcing.

 A dependency is wired in one of three ways. It is one of `require`, `exports` and `module`, and has its
 value at once; or its module has announced its value to all, and the value is taken from the table; or
 a listener is recorded with the module, and `depCount` goes up. A module that completes leaves the
 registry, enters its value in the table, and tells its listeners one by one.

 For each of these there is a lemma that the records of all modules, and the accounts between them, stay
 right: who waits for whom, which listeners have been told, and what has been logged.
 */
module LoaderWiring {
  import opened Wrappers
  import opened LoaderState
  import opened LoaderSteps

  function Completed(m: Module, exports: Option<Value>): Module {
    m.(exports := exports, defined := true, defining := false, defineEmitted := true)
  }

  /** A module takes its exports, leaves the registry and enters the table of values. */
  function CompleteView(v: View, id: Id, exports: Option<Value>): View
    requires id in v.mods
  {
    var m := v.mods[id];
    View(v.mods[id := Completed(m, exports)], v.registry - {id},
         if m.isDefine then v.defined[id := exports] else v.defined, v.requireCounter,
         if m.isDefine then v.log + [Defined(id, exports)] else v.log, v.forced,
         v.enabledRegistry - {id})
  }

  lemma CompleteStep(v: View, id: Id, exports: Option<Value>)
    requires Inv(v, {}) && id in v.mods
    requires var m := v.mods[id];
      m.defining && !m.enabling && !m.error && !m.defined && m.wired == |m.deps| && m.depCount == 0
    requires v.mods[id].factory.Function? ==> HasStarted(id, v.log)
    ensures Inv(CompleteView(v, id, exports), {})
  {
    var w := CompleteView(v, id, exports);
    CompleteRecords(v, id, exports) by { RecordInRegistry(v, id); }
    CompleteLinks(v, id, exports) by { RecordInRegistry(v, id); }
    CompleteHistory(v, id, exports);
    forall x | x in w.mods ensures w.mods[x].Settled() {
      assert v.mods[x].Settled();
    }
  }

  lemma RecordInRegistry(v: View, id: Id)
    requires RecordsOk(v) && id in v.mods
    ensures RecordOk(v, id)
  {}

  lemma CompleteRecords(v: View, id: Id, exports: Option<Value>)
    requires RecordsOk(v) && id in v.mods
    requires var m := v.mods[id];
      m.defining && !m.enabling && !m.error && !m.defined && m.wired == |m.deps| && m.depCount == 0
    requires v.mods[id].factory.Function? ==> HasStarted(id, v.log)
    ensures RecordsOk(CompleteView(v, id, exports))
  {
    var w := CompleteView(v, id, exports);
    forall x | x in w.mods
      ensures RecordOk(w, x) && MatchesOk(w, x) && WaitsOk(w, x) && ListenersOk(w, x)
    {
      assert RecordOk(v, x) && MatchesOk(v, x) && WaitsOk(v, x) && ListenersOk(v, x) && RecordOk(v, id);
      CompleteKeeps(v, id, exports, x);
    }
  }

  lemma CompleteHistory(v: View, id: Id, exports: Option<Value>)
    requires HistoryOk(v) && id in v.mods && (v.mods[id].defining || v.mods[id].defined || v.mods[id].error)
    ensures HistoryOk(CompleteView(v, id, exports))
  {
    var w := CompleteView(v, id, exports);
    forall p | 0 <= p < |w.log| && w.log[p].Started?
      ensures w.log[p].id in w.mods && GivenDeps(w.log[..p], w.log[p], w.mods[w.log[p].id].deps, w.forced)
    {
      assert w.log[..p] == v.log[..p];
    }
  }

  lemma CompleteLinks(v: View, id: Id, exports: Option<Value>)
    requires EnabledOk(v) && id in v.mods && v.mods[id].enabled
    ensures EnabledOk(CompleteView(v, id, exports))
  {
    var w := CompleteView(v, id, exports);
    forall x | x in w.mods ensures LinksOk(w, x) {
      assert LinksOk(v, x);
    }
  }

  lemma CompleteKeeps(v: View, id: Id, exports: Option<Value>, x: Id)
    requires id in v.mods && x in v.mods
    requires RecordOk(v, x) && MatchesOk(v, x) && WaitsOk(v, x) && ListenersOk(v, x) && RecordOk(v, id)
    requires var m := v.mods[id];
      m.defining && !m.enabling && !m.error && !m.defined && m.wired == |m.deps| && m.depCount == 0
    requires v.mods[id].factory.Function? ==> HasStarted(id, v.log)
    ensures var w := CompleteView(v, id, exports);
      RecordOk(w, x) && MatchesOk(w, x) && WaitsOk(w, x) && ListenersOk(w, x)
  {
    CompletedRecord(v.mods[id], exports);
    CompleteKeepsRecord(v, id, exports, x);
    assert CompleteView(v, id, exports).mods[x].Pending() == v.mods[x].Pending();
  }

  lemma CompleteKeepsRecord(v: View, id: Id, exports: Option<Value>, x: Id)
    requires id in v.mods && x in v.mods
    requires RecordOk(v, x) && MatchesOk(v, x) && WaitsOk(v, x) && ListenersOk(v, x) && RecordOk(v, id)
    requires var m := v.mods[id];
      m.defining && !m.enabling && !m.error && !m.defined && m.wired == |m.deps| && m.depCount == 0
    requires v.mods[id].factory.Function? ==> HasStarted(id, v.log)
    ensures RecordOk(CompleteView(v, id, exports), x)
  {
    var m := v.mods[id];
    var w := CompleteView(v, id, exports);
    if m.isDefine {
      LogGrows(v, Defined(id, exports));
      assert w.log[|v.log|] == Defined(id, exports);
      if HasStarted(id, v.log) { StartedStays(id, v.log, Defined(id, exports)); }
    }
    assert RecordOk(v.(log := w.log), x);
    CompletedRecord(m, exports);
  }

  lemma StartedStays(id: Id, log: seq<Event>, e: Event)
    requires HasStarted(id, log)
    ensures HasStarted(id, log + [e])
  {
    var p :| 0 <= p < |log| && log[p].Started? && log[p].id == id;
    assert (log + [e])[p] == log[p];
  }

  lemma CompletedRecord(m: Module, exports: Option<Value>)
    requires m.Consistent() && m.defining && !m.enabling && !m.error && !m.defined && m.wired == |m.deps|
    requires m.depCount == 0
    ensures Completed(m, exports).Consistent()
  {
    assert Completed(m, exports).Pending() == m.Pending();
  }

  /** Once every listener has been served, the module is done. */
  lemma AnnouncedStep(v: View, id: Id)
    requires Inv(v, {}) && id in v.mods && v.mods[id].defineEmitted
    requires forall k | 0 <= k < |v.mods[id].listeners| ::
      var (x, i) := v.mods[id].listeners[k]; x in v.mods && i in v.mods[x].matched
    ensures Inv(Put(v, id, v.mods[id].(defineEmitComplete := true)), {})
  {
    var n := v.mods[id].(defineEmitComplete := true);
    AnnouncedRecords(v, id);
    LinksKeep(v, id, n);
    forall x | x in v.mods ensures Put(v, id, n).mods[x].Settled() {
      assert v.mods[x].Settled();
    }
  }

  lemma AnnouncedRecords(v: View, id: Id)
    requires RecordsOk(v) && id in v.mods && v.mods[id].defineEmitted
    requires forall k | 0 <= k < |v.mods[id].listeners| ::
      var (x, i) := v.mods[id].listeners[k]; x in v.mods && i in v.mods[x].matched
    ensures RecordsOk(Put(v, id, v.mods[id].(defineEmitComplete := true)))
  {
    var w := Put(v, id, v.mods[id].(defineEmitComplete := true));
    forall x | x in w.mods
      ensures RecordOk(w, x) && MatchesOk(w, x) && WaitsOk(w, x) && ListenersOk(w, x)
    {
      AnnouncedKeeps(v, id, x);
    }
  }

  lemma AnnouncedKeeps(v: View, id: Id, x: Id)
    requires RecordsOk(v) && id in v.mods && v.mods[id].defineEmitted && x in v.mods
    requires forall k | 0 <= k < |v.mods[id].listeners| ::
      var (x, i) := v.mods[id].listeners[k]; x in v.mods && i in v.mods[x].matched
    ensures var w := Put(v, id, v.mods[id].(defineEmitComplete := true));
      RecordOk(w, x) && MatchesOk(w, x) && WaitsOk(w, x) && ListenersOk(w, x)
  {
    var m, w := v.mods[id], Put(v, id, v.mods[id].(defineEmitComplete := true));
    assert RecordOk(v, x) && MatchesOk(v, x) && WaitsOk(v, x) && ListenersOk(v, x);
    assert w.mods[id].Pending() == m.Pending();
    forall i | i in w.mods[x].Pending() ensures w.mods[x].deps[i].Target() != id {
      assert i in v.mods[x].Pending();
    }
  }

  /** `require`, `exports` and `module` get their value at once. */
  function WiredSpecial(m: Module, value: Option<Value>, exports: Option<Value>, usingExports: bool): Module {
    m.(wired := m.wired + 1, depExports := m.depExports[m.wired := value],
       exports := exports, usingExports := usingExports)
  }

  lemma WireSpecialStep(v: View, id: Id, value: Option<Value>, exports: Option<Value>, usingExports: bool)
    requires Inv(v, {}) && id in v.mods
    requires var m := v.mods[id]; m.enabling && m.inited && m.wired < |m.deps| && !m.deps[m.wired].On?
    requires v.mods[id].usingExports ==> usingExports
    requires usingExports ==> v.mods[id].usingExports || v.mods[id].deps[v.mods[id].wired].ExportsDep?
    requires Linked(v.mods, id, v.mods[id].wired)
    ensures Inv(Put(v, id, WiredSpecial(v.mods[id], value, exports, usingExports)), {})
  {
    var w := Put(v, id, WiredSpecial(v.mods[id], value, exports, usingExports));
    LinksGrow(v, id, w.mods[id]);
    WireSpecialRecords(v, id, value, exports, usingExports);
    forall x | x in w.mods ensures w.mods[x].Settled() {
      assert v.mods[x].Settled();
    }
  }

  lemma WireSpecialRecords(v: View, id: Id, value: Option<Value>, exports: Option<Value>, usingExports: bool)
    requires RecordsOk(v) && id in v.mods
    requires var m := v.mods[id]; m.enabling && m.inited && m.wired < |m.deps| && !m.deps[m.wired].On?
    requires v.mods[id].usingExports ==> usingExports
    requires usingExports ==> v.mods[id].usingExports || v.mods[id].deps[v.mods[id].wired].ExportsDep?
    ensures RecordsOk(Put(v, id, WiredSpecial(v.mods[id], value, exports, usingExports)))
  {
    var w := Put(v, id, WiredSpecial(v.mods[id], value, exports, usingExports));
    forall x | x in w.mods
      ensures RecordOk(w, x) && MatchesOk(w, x) && WaitsOk(w, x) && ListenersOk(w, x)
    {
      assert RecordOk(v, x) && MatchesOk(v, x) && WaitsOk(v, x) && ListenersOk(v, x) && RecordOk(v, id);
      WireSpecialKeeps(v, id, value, exports, usingExports, x);
    }
  }

  lemma WireSpecialKeeps(v: View, id: Id, value: Option<Value>, exports: Option<Value>, usingExports: bool, x: Id)
    requires id in v.mods && x in v.mods
    requires RecordOk(v, x) && MatchesOk(v, x) && WaitsOk(v, x) && ListenersOk(v, x) && RecordOk(v, id)
    requires var m := v.mods[id]; m.enabling && m.inited && m.wired < |m.deps| && !m.deps[m.wired].On?
    requires v.mods[id].usingExports ==> usingExports
    requires usingExports ==> v.mods[id].usingExports || v.mods[id].deps[v.mods[id].wired].ExportsDep?
    ensures var w := Put(v, id, WiredSpecial(v.mods[id], value, exports, usingExports));
      RecordOk(w, x) && MatchesOk(w, x) && WaitsOk(w, x) && ListenersOk(w, x)
  {
    var m := v.mods[id];
    var n := WiredSpecial(m, value, exports, usingExports);
    assert n.Pending() == m.Pending();
    assert m.deps[m.wired] in m.deps;
    assert x != id ==> Put(v, id, n).mods[x] == v.mods[x];
  }

  /** An `exports` object may be handed out before its module is defined. */
  lemma EarlyExportsStep(v: View, id: Id)
    requires Inv(v, {}) && id in v.mods && v.mods[id].isDefine && v.mods[id].usingExports && !v.mods[id].defined
    ensures Inv(v.(defined := v.defined[id := v.mods[id].exports]), {})
  {
    var w := v.(defined := v.defined[id := v.mods[id].exports]);
    SameLinks(v, w);
    EarlyExportsRecords(v, id);
    forall x | x in w.mods ensures w.mods[x].Settled() {
      assert v.mods[x].Settled();
    }
  }

  lemma EarlyExportsRecords(v: View, id: Id)
    requires RecordsOk(v) && id in v.mods && v.mods[id].isDefine && v.mods[id].usingExports && !v.mods[id].defined
    ensures RecordsOk(v.(defined := v.defined[id := v.mods[id].exports]))
  {
    var w := v.(defined := v.defined[id := v.mods[id].exports]);
    forall x | x in w.mods
      ensures RecordOk(w, x) && MatchesOk(w, x) && WaitsOk(w, x) && ListenersOk(w, x)
    {
      assert RecordOk(v, x) && MatchesOk(v, x) && WaitsOk(v, x) && ListenersOk(v, x);
    }
  }

  function WiredDefined(m: Module, value: Option<Value>): Module {
    Matched(m.(wired := m.wired + 1, depCount := m.depCount + 1), m.wired, value)
  }

  lemma WiredDefinedRecord(m: Module, value: Option<Value>)
    requires m.Consistent() && m.enabling && m.inited && m.wired < |m.deps| && m.deps[m.wired].On?
    ensures var n := WiredDefined(m, value);
      && n.Pending() == m.Pending() && n.Consistent() && Minor(m, n) && n.Settled() && ModuleGrows(m, n)
      && n == m.(wired := m.wired + 1, matched := n.matched, depExports := n.depExports)
      && n.matched == m.matched + {m.wired} && n.depExports == m.depExports[m.wired := value]
  {
    assert WiredDefined(m, value).Pending() == m.Pending();
  }

  /** A dependency that is defined already is matched at once. */
  lemma WireDefinedStep(v: View, id: Id)
    requires Inv(v, {}) && id in v.mods
    requires var m := v.mods[id];
      && m.enabling && m.inited && m.wired < |m.deps| && m.deps[m.wired].On?
      && var d := m.deps[m.wired].Target(); d in v.defined && d !in v.registry
    requires Linked(v.mods, id, v.mods[id].wired)
    ensures var m := v.mods[id];
      Inv(Put(v, id, WiredDefined(m, v.defined[m.deps[m.wired].Target()])), {})
  {
    var m := v.mods[id];
    var d := m.deps[m.wired].Target();
    assert RecordOk(v, id) && MatchesOk(v, id) && WaitsOk(v, id) && RecordOk(v, d);
    WiredDefinedRecord(m, v.defined[d]);
    LinksGrow(v, id, WiredDefined(m, v.defined[d]));
    MinorUpdate(v, {}, id, WiredDefined(m, v.defined[d]));
    assert {} - {id} == {};
  }

  /** A dependency that is not defined yet gets a listener. */
  function Listened(mods: map<Id, Module>, id: Id): map<Id, Module>
    requires id in mods
    requires var m := mods[id]; m.wired < |m.deps| && m.deps[m.wired].On? && m.deps[m.wired].Target() in mods
  {
    var m := mods[id];
    var u := mods[id := m.(wired := m.wired + 1, depCount := m.depCount + 1)];
    var d := m.deps[m.wired].Target();
    u[d := u[d].(listeners := u[d].listeners + [(id, m.wired)])]
  }

  ghost function Listening(v: View, id: Id): View
    requires id in v.mods
    requires var m := v.mods[id]; m.wired < |m.deps| && m.deps[m.wired].On? && m.deps[m.wired].Target() in v.mods
  {
    v.(mods := Listened(v.mods, id))
  }

  lemma WireListenStep(v: View, id: Id)
    requires Inv(v, {}) && id in v.mods
    requires var m := v.mods[id];
      && m.enabling && m.inited && m.wired < |m.deps| && m.deps[m.wired].On?
      && m.deps[m.wired].Target() in v.registry
    requires Linked(v.mods, id, v.mods[id].wired)
    ensures Inv(Listening(v, id), {})
  {
    var d := v.mods[id].deps[v.mods[id].wired].Target();
    var w := Listening(v, id);
    assert RecordOk(v, id) && RecordOk(v, d);
    assert CanListen(v, id);
    ListenRecords(v, id);
    forall x | x in w.mods ensures w.mods[x].Settled() {
      assert v.mods[x].Settled();
      ListeningRecord(v, id, x);
    }
    ListenKeepsHistory(v, id);
    ListenLinks(v, id);
  }

  lemma ListenLinks(v: View, id: Id)
    requires id in v.mods && CanListen(v, id) && EnabledOk(v) && Linked(v.mods, id, v.mods[id].wired)
    ensures EnabledOk(Listening(v, id))
  {
    var w := Listening(v, id);
    forall x | x in w.mods ensures LinksOk(w, x) && w.mods[x].enabled == v.mods[x].enabled {
      ListenLinksAt(v, id, x);
    }
  }

  lemma ListenLinksAt(v: View, id: Id, x: Id)
    requires id in v.mods && CanListen(v, id) && EnabledOk(v) && Linked(v.mods, id, v.mods[id].wired) && x in v.mods
    ensures LinksOk(Listening(v, id), x) && Listening(v, id).mods[x].enabled == v.mods[x].enabled
  {
    var m, n := v.mods[x], Listening(v, id).mods[x];
    assert LinksOk(v, x);
    ListeningRecord(v, id, x);
    forall i | 0 <= i < n.wired && i < |n.deps| && n.deps[i].On?
      ensures var d := n.deps[i].Target();
        d in v.mods && (Listening(v, id).mods[d].enabled || (n.enabling && i == n.wired - 1))
    {
      if x == id && i == m.wired { ListeningRecord(v, id, n.deps[i].Target()); }
      assert n.deps[i].Target() in v.mods;
      ListeningRecord(v, id, n.deps[i].Target());
    }
  }

  lemma ListenRecords(v: View, id: Id)
    requires RecordsOk(v) && id in v.mods && CanListen(v, id)
    ensures RecordsOk(Listening(v, id))
  {
    var w := Listening(v, id);
    forall x | x in w.mods
      ensures RecordOk(w, x) && MatchesOk(w, x) && WaitsOk(w, x) && ListenersOk(w, x)
    {
      assert RecordOk(v, x) && MatchesOk(v, x) && WaitsOk(v, x) && ListenersOk(v, x);
      ListenKeeps(v, id, x);
    }
  }

  lemma ListenKeeps(v: View, id: Id, x: Id)
    requires id in v.mods && x in v.mods && CanListen(v, id)
    requires RecordOk(v, x) && MatchesOk(v, x) && WaitsOk(v, x) && ListenersOk(v, x)
    ensures var w := Listening(v, id);
      RecordOk(w, x) && MatchesOk(w, x) && WaitsOk(w, x) && ListenersOk(w, x)
  {
    ListenKeepsRecord(v, id, x);
    ListenKeepsWaits(v, id, x);
    ListenKeepsListeners(v, id, x);
  }

  lemma ListenKeepsHistory(v: View, id: Id)
    requires id in v.mods && CanListen(v, id)
    requires HistoryOk(v)
    ensures HistoryOk(Listening(v, id))
  {}

  ghost predicate CanListen(v: View, id: Id)
    requires id in v.mods
  {
    var m := v.mods[id];
    && m.enabling && m.inited && m.wired < |m.deps| && m.deps[m.wired].On?
    && m.deps[m.wired].Target() in v.registry && m.deps[m.wired].Target() in v.mods
    && RecordOk(v, id) && RecordOk(v, m.deps[m.wired].Target())
  }

  lemma ListeningRecord(v: View, id: Id, x: Id)
    requires id in v.mods && x in v.mods && CanListen(v, id)
    ensures var w := Listening(v, id); var m, n := v.mods[x], w.mods[x];
      && n == m.(wired := n.wired, depCount := n.depCount, listeners := n.listeners)
      && n.Pending() == (if x == id then m.Pending() + {m.wired} else m.Pending())
      && n.wired == (if x == id then m.wired + 1 else m.wired)
      && n.depCount == (if x == id then m.depCount + 1 else m.depCount)
      && n.listeners == m.listeners +
           (if x == v.mods[id].deps[v.mods[id].wired].Target() then [(id, v.mods[id].wired)] else [])
  {
    var m, n := v.mods[x], Listening(v, id).mods[x];
    assert n.Pending() == if x == id then m.Pending() + {m.wired} else m.Pending();
  }

  lemma ListenKeepsRecord(v: View, id: Id, x: Id)
    requires id in v.mods && x in v.mods && CanListen(v, id)
    requires RecordOk(v, x) && MatchesOk(v, x)
    ensures RecordOk(Listening(v, id), x) && MatchesOk(Listening(v, id), x)
  {
    ListeningRecord(v, id, x);
    var m, n := v.mods[x], Listening(v, id).mods[x];
    assert n.Consistent();
    forall i | i in n.matched && i < |n.deps| && n.deps[i].On? && (x, i) !in v.forced
      ensures var d := n.deps[i].Target(); d in v.mods && Listening(v, id).mods[d].defined == v.mods[d].defined
    {
      ListeningRecord(v, id, n.deps[i].Target());
    }
  }

  lemma ListenKeepsWaits(v: View, id: Id, x: Id)
    requires id in v.mods && x in v.mods && CanListen(v, id)
    requires WaitsOk(v, x)
    ensures WaitsOk(Listening(v, id), x)
  {
    var w := Listening(v, id);
    ListeningRecord(v, id, x);
    var n := w.mods[x];
    forall i | i in n.Pending()
      ensures var d := n.deps[i].Target(); d in w.mods && !w.mods[d].defineEmitComplete && (x, i) in w.mods[d].listeners
    {
      var d := n.deps[i].Target();
      if x == id && i == v.mods[id].wired {
        ListeningRecord(v, id, d);
        assert w.mods[d].listeners[|v.mods[d].listeners|] == (id, i);
      } else {
        assert i in v.mods[x].Pending();
        ListeningRecord(v, id, d);
      }
    }
  }

  lemma ListenKeepsListeners(v: View, id: Id, x: Id)
    requires id in v.mods && x in v.mods && CanListen(v, id)
    requires ListenersOk(v, x)
    ensures ListenersOk(Listening(v, id), x)
  {
    var w := Listening(v, id);
    ListeningRecord(v, id, x);
    forall k | 0 <= k < |w.mods[x].listeners|
      ensures var (y, i) := w.mods[x].listeners[k];
        y in w.mods && i < w.mods[y].wired && i < |w.mods[y].deps| && w.mods[y].deps[i].On?
          && w.mods[y].deps[i].Target() == x
    {
      var (y, i) := w.mods[x].listeners[k];
      if k < |v.mods[x].listeners| {
        assert v.mods[x].listeners[k] == (y, i);
      }
      ListeningRecord(v, id, y);
    }
  }
}
