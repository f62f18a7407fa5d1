/**
 The single assignments of the module loader, and that each of them keeps the bookkeeping right.

 An update of one record is minor if other modules cannot notice it: it leaves alone what they read,
 which is whether the module is defined, its exports, its listeners, and, once it is inited, its factory
 and its dependencies. Most assignments are minor; the ones that are not are wiring, completing and
 announcing. Here are the flags, a new record, a start of the factory, and the match of one dependency,
 which is the only way in which `depCount` goes down.
 */
module LoaderSteps {
  import opened Wrappers
  import opened LoaderState

  function Matched(m: Module, i: nat, value: Option<Value>): Module {
    m.(matched := m.matched + {i}, depCount := m.depCount - 1, depExports := m.depExports[i := value])
  }

  /** One record changes; a module that is enabled by it is noted as such. */
  function Put(v: View, id: Id, m: Module): View
    requires id in v.mods
  {
    v.(mods := v.mods[id := m],
       enabledRegistry := if m.enabled && !v.mods[id].enabled then v.enabledRegistry + {id} else v.enabledRegistry)
  }

  /** A record changes, but for what is wired. */
  lemma LinksKeep(v: View, id: Id, n: Module)
    requires EnabledOk(v) && id in v.mods && n.wired == v.mods[id].wired && (v.mods[id].enabled ==> n.enabled)
    requires n.wired > 0 ==> n.deps == v.mods[id].deps
    requires v.mods[id].enabling ==> n.enabling || Linked(v.mods, id, n.wired)
    requires !v.mods[id].enabled && n.enabled ==> id in v.registry
    ensures EnabledOk(Put(v, id, n))
  {
    var w := Put(v, id, n);
    forall x | x in w.mods ensures LinksOk(w, x) {
      assert LinksOk(v, x);
    }
  }

  /** One more dependency is wired; all earlier ones are enabled. */
  lemma LinksGrow(v: View, id: Id, n: Module)
    requires EnabledOk(v) && id in v.mods && Linked(v.mods, id, v.mods[id].wired)
    requires n.wired == v.mods[id].wired + 1 && n.deps == v.mods[id].deps && n.enabled == v.mods[id].enabled
    requires n.enabling
    requires n.wired <= |n.deps| && n.deps[n.wired - 1].On? ==> n.deps[n.wired - 1].Target() in v.mods
    ensures EnabledOk(Put(v, id, n))
  {
    var w := Put(v, id, n);
    forall x | x in w.mods ensures LinksOk(w, x) {
      assert LinksOk(v, x);
    }
  }

  /** What other code does to modules leaves what is linked. */
  lemma LinkedGrows(a: map<Id, Module>, b: map<Id, Module>, id: Id, n: nat)
    requires Grows(a, b) && id in a && Linked(a, id, n) && b[id].deps == a[id].deps
    ensures Linked(b, id, n)
  {
    forall i | 0 <= i < n && i < |a[id].deps| && a[id].deps[i].On?
      ensures a[id].deps[i].Target() in b && b[a[id].deps[i].Target()].enabled
    {
      assert ModuleGrows(a[a[id].deps[i].Target()], b[a[id].deps[i].Target()]);
    }
  }

  /** What an update of one record must leave alone for the others to stay right. */
  ghost predicate Minor(m: Module, n: Module) {
    && n.isDefine == m.isDefine && n.listeners == m.listeners
    && (m.inited ==> n.inited && n.factory == m.factory && n.deps == m.deps)
    && m.wired <= n.wired && (m.wired > 0 ==> m.inited)
    && n.exports == m.exports && n.usingExports == m.usingExports
    && n.defined == m.defined && n.defineEmitComplete == m.defineEmitComplete
    && (m.defining || m.defined || m.error ==> n.defining || n.defined || n.error)
  }

  /** Others do not notice a minor update. */
  lemma OthersKeep(v: View, id: Id, n: Module, x: Id)
    requires id in v.mods && Minor(v.mods[id], n) && x in v.mods && x != id
    ensures RecordOk(v, x) ==> RecordOk(Put(v, id, n), x)
    ensures MatchesOk(v, x) ==> MatchesOk(Put(v, id, n), x)
    ensures WaitsOk(v, x) ==> WaitsOk(Put(v, id, n), x)
    ensures ListenersOk(v, x) ==> ListenersOk(Put(v, id, n), x)
  {
    ListenersKeep(v, id, n, x);
  }

  lemma ListenersKeep(v: View, id: Id, n: Module, d: Id)
    requires id in v.mods && Minor(v.mods[id], n) && d in v.mods
    ensures ListenersOk(v, d) ==> ListenersOk(Put(v, id, n), d)
  {
    var w := Put(v, id, n);
    assert w.mods[d].listeners == v.mods[d].listeners;
    if ListenersOk(v, d) {
      forall k | 0 <= k < |w.mods[d].listeners|
        ensures var (x, i) := w.mods[d].listeners[k];
          x in w.mods && i < w.mods[x].wired && i < |w.mods[x].deps| && w.mods[x].deps[i].On?
            && w.mods[x].deps[i].Target() == d
      {
        var (x, i) := v.mods[d].listeners[k];
        assert 0 <= i < v.mods[x].wired;
      }
    }
  }

  lemma HistoryKeeps(v: View, id: Id, n: Module)
    requires id in v.mods && Minor(v.mods[id], n)
    requires HistoryOk(v)
    ensures HistoryOk(Put(v, id, n))
  {}

  lemma MinorUpdate(v: View, unsettled: set<Id>, id: Id, n: Module)
    requires Inv(v, unsettled) && id in v.mods && Minor(v.mods[id], n)
    requires var w := Put(v, id, n); RecordOk(w, id) && MatchesOk(w, id) && WaitsOk(w, id) && EnabledOk(w)
    ensures Inv(Put(v, id, n), unsettled + {id})
    ensures n.Settled() ==> Inv(Put(v, id, n), unsettled - {id})
  {
    var w := Put(v, id, n);
    MinorRecords(v, id, n);
    HistoryKeeps(v, id, n);
    forall x | x in w.mods && x != id && x !in unsettled ensures w.mods[x].Settled() {
      assert v.mods[x].Settled();
    }
  }

  lemma MinorRecords(v: View, id: Id, n: Module)
    requires RecordsOk(v) && id in v.mods && Minor(v.mods[id], n)
    requires var w := Put(v, id, n); RecordOk(w, id) && MatchesOk(w, id) && WaitsOk(w, id)
    ensures RecordsOk(Put(v, id, n))
  {
    var w := Put(v, id, n);
    forall x | x in w.mods
      ensures RecordOk(w, x) && MatchesOk(w, x) && WaitsOk(w, x) && ListenersOk(w, x)
    {
      assert RecordOk(v, x) && MatchesOk(v, x) && WaitsOk(v, x) && ListenersOk(v, x);
      if x != id { OthersKeep(v, id, n, x); } else { ListenersKeep(v, id, n, id); }
    }
  }

  /** Records that are there stay as they are, and new ones have nothing wired. */
  lemma SameLinks(v: View, w: View)
    requires EnabledOk(v) && v.mods.Keys <= w.mods.Keys && v.registry <= w.registry <= w.mods.Keys
    requires w.enabledRegistry == v.enabledRegistry && w.registry - v.registry <= w.mods.Keys - v.mods.Keys
    requires forall x <- w.mods ::
      if x in v.mods then w.mods[x] == v.mods[x] else w.mods[x].wired == 0 && !w.mods[x].enabled
    ensures EnabledOk(w)
  {
    forall x | x in w.mods ensures LinksOk(w, x) {
      if x in v.mods { assert LinksOk(v, x); }
    }
  }

  lemma EvolvesOne(v: View, id: Id, n: Module)
    requires id in v.mods && ModuleEvolves(v.mods[id], n)
    ensures Evolves(v.mods, Put(v, id, n).mods)
  {}

  lemma CounterGrows(v: View)
    requires Inv(v, {})
    ensures Inv(v.(requireCounter := v.requireCounter + 1), {})
  {
    var u := v.(requireCounter := v.requireCounter + 1);
    SameLinks(v, u);
    forall x | x in v.mods
      ensures RecordOk(u, x) && MatchesOk(u, x) && WaitsOk(u, x) && ListenersOk(u, x)
    {
      assert RecordOk(v, x) && MatchesOk(v, x) && WaitsOk(v, x) && ListenersOk(v, x);
    }
    forall x | x in u.mods ensures u.mods[x].Settled() {
      assert v.mods[x].Settled();
    }
  }

  lemma ForcedGrows(v: View, unsettled: set<Id>, forced: set<(Id, nat)>)
    requires Inv(v, unsettled) && v.forced <= forced
    ensures Inv(v.(forced := forced), unsettled)
  {
    var u := v.(forced := forced);
    SameLinks(v, u);
    forall x | x in v.mods
      ensures RecordOk(u, x) && MatchesOk(u, x) && WaitsOk(u, x) && ListenersOk(u, x)
    {
      assert RecordOk(v, x) && MatchesOk(v, x) && WaitsOk(v, x) && ListenersOk(v, x);
    }
    forall x | x in u.mods && x !in unsettled ensures u.mods[x].Settled() {
      assert v.mods[x].Settled();
    }
  }

  /** One pending dependency of `id` gets its value, from its module or by force. */
  lemma MatchStep(v: View, id: Id, i: nat, value: Option<Value>)
    requires Inv(v, {id}) && id in v.mods && i in v.mods[id].Pending()
    requires (id, i) !in v.forced ==>
      var d := v.mods[id].deps[i].Target();
      d in v.mods && v.mods[d].defined && d in v.defined && value == v.defined[d]
    ensures var w := Put(v, id, Matched(v.mods[id], i, value));
      Inv(w, {id}) && Evolves(v.mods, w.mods)
  {
    var m := v.mods[id];
    var n := Matched(m, i, value);
    assert RecordOk(v, id) && MatchesOk(v, id) && WaitsOk(v, id);
    MatchedRecord(m, i, value);
    LinksKeep(v, id, n);
    MinorUpdate(v, {id}, id, n);
    EvolvesOne(v, id, n);
    assert {id} + {id} == {id};
  }

  lemma MatchedRecord(m: Module, i: nat, value: Option<Value>)
    requires m.Consistent() && i in m.Pending()
    ensures var n := Matched(m, i, value);
      n.Consistent() && n.Pending() == m.Pending() - {i} && Minor(m, n) && ModuleEvolves(m, n)
  {
    assert Matched(m, i, value).Pending() == m.Pending() - {i};
  }

  /** Only the flags that mark a call in progress differ. */
  ghost predicate SameButFlags(m: Module, n: Module) {
    n == m.(enabled := n.enabled, enabling := n.enabling, fetched := n.fetched,
            defining := n.defining, defineEmitted := n.defineEmitted, error := n.error)
  }

  lemma FlagStep(v: View, unsettled: set<Id>, id: Id, n: Module)
    requires Inv(v, unsettled) && id in v.mods && SameButFlags(v.mods[id], n) && n.Consistent()
    requires var m := v.mods[id]; m.defining || m.defined || m.error ==> n.defining || n.defined || n.error
    requires v.mods[id].enabled ==> n.enabled
    requires v.mods[id].enabling ==> n.enabling || Linked(v.mods, id, n.wired)
    ensures Inv(Put(v, id, n), unsettled + {id})
    ensures n.Settled() ==> Inv(Put(v, id, n), unsettled - {id})
  {
    var m := v.mods[id];
    assert RecordOk(v, id) && MatchesOk(v, id) && WaitsOk(v, id);
    assert n.Pending() == m.Pending();
    LinksKeep(v, id, n);
    MinorUpdate(v, unsettled, id, n);
  }

  /** `init` gives a module its dependencies. */
  lemma InitStep(v: View, id: Id, deps: seq<Dep>, factory: Factory)
    requires Inv(v, {}) && id in v.mods && !v.mods[id].inited
    ensures Inv(Put(v, id, v.mods[id].(deps := deps, factory := factory, inited := true)), {id})
  {
    var m := v.mods[id];
    var n := m.(deps := deps, factory := factory, inited := true);
    assert RecordOk(v, id) && MatchesOk(v, id) && WaitsOk(v, id);
    assert m.Pending() == {} == n.Pending();
    LinksKeep(v, id, n);
    MinorUpdate(v, {}, id, n);
    assert {} + {id} == {id};
  }

  function WithNew(v: View, id: Id): View {
    v.(mods := v.mods[id := NewModule(id)], registry := v.registry + {id})
  }

  lemma NewModuleStep(v: View, unsettled: set<Id>, id: Id)
    requires Inv(v, unsettled) && id !in v.mods && (id.Internal? ==> id.n <= v.requireCounter)
    ensures Inv(WithNew(v, id), unsettled)
  {
    var w := WithNew(v, id);
    SameLinks(v, w);
    NewRecords(v, id);
    forall x | x in w.mods && x !in unsettled ensures w.mods[x].Settled() {
      if x in v.mods {
        assert v.mods[x].Settled();
      }
    }
  }

  lemma NewRecords(v: View, id: Id)
    requires RecordsOk(v) && id !in v.mods && v.defined.Keys <= v.mods.Keys && v.registry <= v.mods.Keys
    ensures RecordsOk(WithNew(v, id))
  {
    var w := WithNew(v, id);
    assert NewModule(id).Pending() == {};
    forall x | x in w.mods
      ensures RecordOk(w, x) && MatchesOk(w, x) && WaitsOk(w, x) && ListenersOk(w, x)
    {
      if x in v.mods {
        assert RecordOk(v, x) && MatchesOk(v, x) && WaitsOk(v, x) && ListenersOk(v, x);
      }
    }
  }

  /** The factory of a module that waits for nothing starts. */
  lemma StartStep(v: View, id: Id)
    requires Inv(v, {}) && id in v.mods
    requires var m := v.mods[id];
      m.defining && m.inited && m.enabled && !m.enabling && m.wired == |m.deps| && !m.error && m.depCount < 1
        && !m.defined
    requires !HasStarted(id, v.log)
    ensures Inv(v.(log := v.log + [Started(id, v.mods[id].depExports)]), {})
  {
    var m := v.mods[id];
    var start := Started(id, m.depExports);
    var w := v.(log := v.log + [start]);
    SameLinks(v, w);
    LogGrows(v, start);
    assert GivenDeps(v.log, start, m.deps, v.forced) by {
      assert RecordOk(v, id) && MatchesOk(v, id);
      forall i | 0 <= i < |m.deps| && m.deps[i].On? && (id, i) !in v.forced
        ensures i in start.args && Defined(m.deps[i].Target(), start.args[i]) in v.log
      {
        assert m.Pending() == {};
        assert i !in m.Pending();
        assert RecordOk(v, m.deps[i].Target());
      }
    }
    assert StartsAfterDeps(w) by {
      forall p | 0 <= p < |w.log| && w.log[p].Started?
        ensures w.log[p].id in w.mods && GivenDeps(w.log[..p], w.log[p], w.mods[w.log[p].id].deps, w.forced)
      {
        assert w.log[..p] == v.log[..p];
      }
    }
  }

  /** Records do not mind a longer log. */
  lemma LogGrows(v: View, e: Event)
    ensures var w := v.(log := v.log + [e]);
      forall x | x in v.mods ::
        && (RecordOk(v, x) ==> RecordOk(w, x)) && (MatchesOk(v, x) ==> MatchesOk(w, x))
        && (WaitsOk(v, x) ==> WaitsOk(w, x)) && (ListenersOk(v, x) ==> ListenersOk(w, x))
  {
    var w := v.(log := v.log + [e]);
    forall x | x in v.mods && RecordOk(v, x) ensures RecordOk(w, x) {
      if HasStarted(x, v.log) {
        var p :| 0 <= p < |v.log| && v.log[p].Started? && v.log[p].id == x;
        assert w.log[p] == v.log[p];
      }
    }
  }
}
