/**
 The bookkeeping of the RequireJS module loader as values: one record per module, and what must be
 true of all records together whenever code outside the loader can run.
 */
module LoaderState {
  import opened Wrappers

  /** The name of a `define`d module, or the internal name made up for a `require` call. */
  datatype Id = Named(name: string) | Internal(n: nat)

  datatype Value =
    | Foreign(n: int)
    | ExportsObject(id: Id)
    | LocalRequire(id: Id)
    | ModuleObject(id: Id)

  /** A dependency after its name has been normalised. */
  datatype Dep = RequireDep | ExportsDep | ModuleDep | On(name: string) {
    function Target(): Id
      requires On?
    {
      Named(name)
    }
  }

  datatype Factory = Function | Literal(value: Option<Value>)

  datatype Module = Module(
    isDefine: bool,
    factory: Factory,
    deps: seq<Dep>,
    wired: nat,
    matched: set<nat>,
    depCount: int,
    depExports: map<nat, Option<Value>>,
    exports: Option<Value>,
    usingExports: bool,
    enabled: bool,
    enabling: bool,
    inited: bool,
    fetched: bool,
    defining: bool,
    defined: bool,
    defineEmitted: bool,
    defineEmitComplete: bool,
    error: bool,
    listeners: seq<(Id, nat)>)
  {
    /** The wired dependencies that have not been matched yet. */
    ghost function Pending(): set<nat> {
      set i: nat | i < wired && i < |deps| && deps[i].On? && i !in matched
    }

    /** Some call further up is in the middle of this module's `check` or `enable`. */
    ghost predicate Busy() {
      !error && (defining || enabling || (defined && !defineEmitComplete))
    }

    ghost predicate Consistent() {
      && wired <= |deps|
      && (forall i <- matched :: i < wired && deps[i].On?)
      && depCount == |Pending()|
      && (!inited ==> deps == [])
      && (!enabled ==> wired == 0)
      && (enabling ==> inited && enabled && !defining && !defined)
      && (defining ==> inited && enabled && !defined)
      && (defined ==> inited && enabled && wired == |deps| && depCount == 0)
      && (defineEmitted <==> defined)
      && (defineEmitComplete ==> defineEmitted)
      && (error ==> inited && enabled && !defined)
      && (fetched ==> enabled) && (usingExports ==> ExportsDep in deps)
    }

    /** A module that is needed has been asked for; one that waits for nothing has been, or is being,
        defined. */
    ghost predicate Settled() {
      && (enabled && !inited ==> fetched)
      && (inited && enabled && !enabling ==>
            wired == |deps| && (depCount < 1 && !error ==> defined || defining))
    }
  }

  function NewModule(id: Id): Module {
    Module(id.Named?, Literal(None), [], 0, {}, 0, map[], None, false,
           false, false, false, false, false, false, false, false, false, [])
  }

  /** What the loader does that can be seen from outside, in order. */
  datatype Event =
    | Started(id: Id, args: map<nat, Option<Value>>)
    | Defined(id: Id, value: Option<Value>)

  datatype View = View(
    mods: map<Id, Module>,
    registry: set<Id>,
    defined: map<Id, Option<Value>>,
    requireCounter: nat,
    log: seq<Event>,
    forced: set<(Id, nat)>,
    enabledRegistry: set<Id>)

  /** The registry holds the modules that are not defined yet. The table of values holds what defined
      modules export, and `exports` objects handed out early. */
  ghost predicate RecordOk(v: View, id: Id)
    requires id in v.mods
  {
    var m := v.mods[id];
    && m.Consistent() && m.isDefine == id.Named?
    && (id in v.registry <==> !m.defined)
    && (m.defined && m.isDefine ==> id in v.defined && v.defined[id] == m.exports && Defined(id, m.exports) in v.log)
    && (m.defined && m.factory.Function? ==> HasStarted(id, v.log))
    && (id in v.defined ==> m.isDefine && (m.defined || m.usingExports))
  }

  /** A matched dependency that was not forced is defined, and the module holds its value. */
  ghost predicate MatchesOk(v: View, id: Id)
    requires id in v.mods
  {
    var m := v.mods[id];
    forall i <- m.matched | i < |m.deps| && m.deps[i].On? && (id, i) !in v.forced ::
      var d := m.deps[i].Target();
      && d in v.mods && v.mods[d].defined && d in v.defined
      && i in m.depExports && m.depExports[i] == v.defined[d]
  }

  /** A pending dependency has a listener at a module that will still notify it. */
  ghost predicate WaitsOk(v: View, id: Id)
    requires id in v.mods
  {
    var m := v.mods[id];
    forall i <- m.Pending() ::
      var d := m.deps[i].Target();
      d in v.mods && !v.mods[d].defineEmitComplete && (id, i) in v.mods[d].listeners
  }

  ghost predicate ListenersOk(v: View, d: Id)
    requires d in v.mods
  {
    forall k | 0 <= k < |v.mods[d].listeners| ::
      var (id, i) := v.mods[d].listeners[k];
      id in v.mods && i < v.mods[id].wired && i < |v.mods[id].deps| && v.mods[id].deps[i].On?
        && v.mods[id].deps[i].Target() == d
  }

  /** Every dependency that has been wired is enabled; of a module in the middle of `enable`, the last
      one is about to be. */
  ghost predicate LinksOk(v: View, id: Id)
    requires id in v.mods
  {
    var m := v.mods[id];
    forall i | 0 <= i < m.wired && i < |m.deps| && m.deps[i].On? ::
      m.deps[i].Target() in v.mods && (v.mods[m.deps[i].Target()].enabled || (m.enabling && i == m.wired - 1))
  }

  /** The first `n` dependencies of a module are enabled. */
  ghost predicate Linked(mods: map<Id, Module>, id: Id, n: nat)
    requires id in mods
  {
    forall i | 0 <= i < n && i < |mods[id].deps| && mods[id].deps[i].On? ::
      mods[id].deps[i].Target() in mods && mods[mods[id].deps[i].Target()].enabled
  }

  /** The registry of enabled modules, and what enabling one has enabled. */
  ghost predicate EnabledOk(v: View) {
    && v.enabledRegistry <= v.registry <= v.mods.Keys
    && (forall id <- v.registry :: v.mods[id].enabled ==> id in v.enabledRegistry)
    && (forall id <- v.enabledRegistry :: v.mods[id].enabled)
    && forall id {:trigger LinksOk(v, id)} | id in v.mods :: LinksOk(v, id)
  }

  ghost predicate SettledBut(v: View, unsettled: set<Id>) {
    forall id {:trigger v.mods[id].Settled()} | id in v.mods && id !in unsettled :: v.mods[id].Settled()
  }

  /** No factory starts twice. */
  ghost predicate StartsOnce(log: seq<Event>) {
    forall p, q | 0 <= p < q < |log| && log[p].Started? && log[q].Started? :: log[p].id != log[q].id
  }

  /** Each start comes after the dependencies that were not forced have been defined, and is
      given their values. */
  ghost predicate StartsAfterDeps(v: View) {
    forall p | 0 <= p < |v.log| && v.log[p].Started? ::
      v.log[p].id in v.mods && GivenDeps(v.log[..p], v.log[p], v.mods[v.log[p].id].deps, v.forced)
  }

  ghost predicate GivenDeps(earlier: seq<Event>, start: Event, deps: seq<Dep>, forced: set<(Id, nat)>)
    requires start.Started?
  {
    forall i | 0 <= i < |deps| && deps[i].On? && (start.id, i) !in forced ::
      i in start.args && Defined(deps[i].Target(), start.args[i]) in earlier
  }

  ghost predicate StartersOk(v: View) {
    forall p | 0 <= p < |v.log| && v.log[p].Started? ::
      v.log[p].id in v.mods && var m := v.mods[v.log[p].id]; m.inited && (m.defining || m.defined || m.error)
  }

  ghost predicate HasStarted(id: Id, log: seq<Event>) {
    exists p | 0 <= p < |log| :: log[p].Started? && log[p].id == id
  }

  ghost predicate RecordsOk(v: View) {
    && (forall id {:trigger RecordOk(v, id)} | id in v.mods :: RecordOk(v, id))
    && (forall id {:trigger MatchesOk(v, id)} | id in v.mods :: MatchesOk(v, id))
    && (forall id {:trigger WaitsOk(v, id)} | id in v.mods :: WaitsOk(v, id))
    && (forall id {:trigger ListenersOk(v, id)} | id in v.mods :: ListenersOk(v, id))
  }

  ghost predicate HistoryOk(v: View) {
    StartsOnce(v.log) && StartsAfterDeps(v) && StartersOk(v)
  }

  ghost predicate Inv(v: View, unsettled: set<Id>) {
    && v.registry <= v.mods.Keys && v.defined.Keys <= v.mods.Keys
    && (forall id <- v.mods | id.Internal? :: id.n <= v.requireCounter)
    && RecordsOk(v) && SettledBut(v, unsettled) && HistoryOk(v) && EnabledOk(v)
  }

  /** Nothing that has been done to a module is taken back. */
  ghost predicate ModuleGrows(m: Module, n: Module) {
    && n.isDefine == m.isDefine
    && (m.inited ==> n.inited && n.deps == m.deps && n.factory == m.factory)
    && (m.enabled ==> n.enabled)
    && (m.defined ==> n.defined && n.exports == m.exports)
    && (m.defineEmitted ==> n.defineEmitted)
    && (m.defineEmitComplete ==> n.defineEmitComplete)
    && (m.error ==> n.error)
    && m.wired <= n.wired && m.matched <= n.matched && m.listeners <= n.listeners
    && (m.defined ==> n.listeners == m.listeners)
  }

  ghost predicate Grows(a: map<Id, Module>, b: map<Id, Module>) {
    a.Keys <= b.Keys && forall id {:trigger ModuleGrows(a[id], b[id])} | id in a :: ModuleGrows(a[id], b[id])
  }

  /** How one module may change while other code runs: it grows, and if some outer call is working
      on it, that call's progress is left alone. */
  ghost predicate ModuleEvolves(m: Module, n: Module) {
    && ModuleGrows(m, n)
    && (m.Busy() ==>
          && n.defining == m.defining && n.enabling == m.enabling && n.wired == m.wired
          && n.defined == m.defined && n.defineEmitComplete == m.defineEmitComplete && n.error == m.error
          && n.exports == m.exports && n.usingExports == m.usingExports)
    && (!m.Busy() ==> !n.Busy())
  }

  /** Every module but `self`, on which the caller is working, evolves. */
  ghost predicate EvolvesBut(a: map<Id, Module>, b: map<Id, Module>, self: Id) {
    && a.Keys <= b.Keys
    && (self in a ==> ModuleGrows(a[self], b[self]))
    && (forall id {:trigger ModuleEvolves(a[id], b[id])} | id in a && id != self :: ModuleEvolves(a[id], b[id]))
    && (forall id {:trigger b[id].Busy()} | id in b && id !in a && id != self :: !b[id].Busy())
  }

  ghost predicate Evolves(a: map<Id, Module>, b: map<Id, Module>) {
    && a.Keys <= b.Keys
    && (forall id {:trigger ModuleEvolves(a[id], b[id])} | id in a :: ModuleEvolves(a[id], b[id]))
    && (forall id {:trigger b[id].Busy()} | id in b && id !in a :: !b[id].Busy())
  }

  lemma EvolvesTransitive(a: map<Id, Module>, b: map<Id, Module>, c: map<Id, Module>)
    requires Evolves(a, b) && Evolves(b, c)
    ensures Evolves(a, c)
  {
    forall id | id in a ensures ModuleEvolves(a[id], c[id]) {
      assert ModuleEvolves(a[id], b[id]) && ModuleEvolves(b[id], c[id]);
    }
    forall id | id in c && id !in a ensures !c[id].Busy() {
      if id in b {
        assert ModuleEvolves(b[id], c[id]);
      }
    }
  }

  lemma EvolvesButTransitive(a: map<Id, Module>, b: map<Id, Module>, c: map<Id, Module>, self: Id)
    requires EvolvesBut(a, b, self) && EvolvesBut(b, c, self)
    ensures EvolvesBut(a, c, self)
  {
    forall id | id in a && id != self ensures ModuleEvolves(a[id], c[id]) {
      assert ModuleEvolves(a[id], b[id]) && ModuleEvolves(b[id], c[id]);
    }
    forall id | id in c && id !in a && id != self ensures !c[id].Busy() {
      if id in b {
        assert ModuleEvolves(b[id], c[id]);
      }
    }
  }

  lemma EvolvesForgets(a: map<Id, Module>, b: map<Id, Module>, self: Id)
    requires Evolves(a, b)
    ensures EvolvesBut(a, b, self)
  {
    forall id | id in a ensures ModuleEvolves(a[id], b[id]) {}
  }

  /** The caller is done with `self`. */
  lemma EvolvesAgain(a: map<Id, Module>, b: map<Id, Module>, self: Id)
    requires EvolvesBut(a, b, self) && self in a && !a[self].Busy() && !b[self].Busy()
    ensures Evolves(a, b)
  {
    forall id | id in a ensures ModuleEvolves(a[id], b[id]) {
      if id != self { assert ModuleEvolves(a[id], b[id]); }
    }
  }

  ghost predicate NoNewErrors(a: map<Id, Module>, b: map<Id, Module>) {
    forall id <- a | id in b && b[id].error :: a[id].error
  }
}
