/** What the bookkeeping of the module loader means for whole runs. */
module LoaderRuns {
  import opened Wrappers
  import opened LoaderState
  import opened LoaderGraph

  /** In a run whose dependencies have no cycle, nothing is ever forced. */
  lemma AcyclicNeverForces(v: View)
    requires Acyclic(v.mods) && forall e <- v.forced :: OnCycle(v.mods, e)
    ensures v.forced == {}
  {
    forall e: (Id, nat) ensures !OnCycle(v.mods, e) {
      NoEdgeOnCycle(v.mods, e);
    }
  }

  lemma NoEdgeOnCycle(mods: map<Id, Module>, e: (Id, nat))
    requires Acyclic(mods)
    ensures !OnCycle(mods, e)
  {
    if e.0 in mods && mods[e.0].inited && e.1 < |mods[e.0].deps| && mods[e.0].deps[e.1].On? {
      assert DependsOn(mods, e.0, mods[e.0].deps[e.1].Target());
    }
  }

  /** A factory starts at most once in a run, after each dependency that cycle breaking did not force
      has been defined, and it receives exactly the value defined then. */
  lemma StartIsSafe(v: View, p: nat, i: nat)
    requires Inv(v, {}) && p < |v.log| && v.log[p].Started?
    requires v.log[p].id in v.mods ==>
      var m := v.mods[v.log[p].id]; i < |m.deps| && m.deps[i].On? && (v.log[p].id, i) !in v.forced
    ensures forall q: nat | q < |v.log| && q != p && v.log[q].Started? :: v.log[q].id != v.log[p].id
    ensures v.log[p].id in v.mods && i in v.log[p].args
    ensures exists q: nat :: q < p && v.log[q] == Defined(Named(v.mods[v.log[p].id].deps[i].name), v.log[p].args[i])
  {
    var start := v.log[p];
    assert GivenDeps(v.log[..p], start, v.mods[start.id].deps, v.forced);
    var e := Defined(v.mods[start.id].deps[i].Target(), start.args[i]);
    assert e in v.log[..p];
    var q: nat :| q < p && v.log[..p][q] == e;
  }

  /** Together: without dependency cycles, every start is safe for every dependency. */
  lemma AcyclicRunIsSafe(v: View, p: nat, i: nat)
    requires Inv(v, {}) && Acyclic(v.mods) && (forall e <- v.forced :: OnCycle(v.mods, e))
    requires p < |v.log| && v.log[p].Started?
    requires v.log[p].id in v.mods ==> var m := v.mods[v.log[p].id]; i < |m.deps| && m.deps[i].On?
    ensures v.log[p].id in v.mods && i in v.log[p].args
    ensures exists q: nat :: q < p && v.log[q] == Defined(Named(v.mods[v.log[p].id].deps[i].name), v.log[p].args[i])
  {
    AcyclicNeverForces(v);
    StartIsSafe(v, p, i);
  }

  /** `depCount` counts the wired dependencies that have not been matched. */
  lemma DepCountIsExact(v: View, id: Id)
    requires Inv(v, {}) && id in v.mods
    ensures var m := v.mods[id];
      m.depCount == |set i: nat | i < m.wired && i < |m.deps| && m.deps[i].On? && i !in m.matched|
  {
    assert RecordOk(v, id);
  }

  /** A module that has been completed has had its callback run, with nothing left to wait for. */
  lemma CompletedHasRun(v: View, id: Id)
    requires Inv(v, {}) && id in v.mods && v.mods[id].defined && v.mods[id].factory.Function?
    ensures exists p: nat :: p < |v.log| && v.log[p].Started? && v.log[p].id == id
    ensures forall i: nat | i < |v.mods[id].deps| && v.mods[id].deps[i].On? :: i in v.mods[id].matched
  {
    assert RecordOk(v, id);
    var m := v.mods[id];
    assert m.Pending() == {};
    forall i: nat | i < |m.deps| && m.deps[i].On? ensures i in m.matched {
      assert i !in m.Pending();
    }
    var p :| 0 <= p < |v.log| && v.log[p].Started? && v.log[p].id == id;
  }
}
