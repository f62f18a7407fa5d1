/** The dependency graph between modules, and the regions of it that can be completed. */
module LoaderGraph {
  import opened Wrappers
  import opened LoaderState

  ghost predicate DependsOn(mods: map<Id, Module>, a: Id, b: Id) {
    a in mods && mods[a].inited && exists i | 0 <= i < |mods[a].deps| ::
      mods[a].deps[i].On? && Named(mods[a].deps[i].name) == b
  }

  ghost predicate IsDepPath(mods: map<Id, Module>, path: seq<Id>) {
    |path| > 0 && forall k | 0 <= k < |path| - 1 :: DependsOn(mods, path[k], path[k + 1])
  }

  ghost predicate Reaches(mods: map<Id, Module>, a: Id, b: Id) {
    exists path: seq<Id> :: IsDepPath(mods, path) && path[0] == a && path[|path| - 1] == b
  }

  /** The `i`-th dependency of `e.0` leads back to `e.0`. */
  ghost predicate OnCycle(mods: map<Id, Module>, e: (Id, nat)) {
    && e.0 in mods && mods[e.0].inited && e.1 < |mods[e.0].deps| && mods[e.0].deps[e.1].On?
    && Reaches(mods, Named(mods[e.0].deps[e.1].name), e.0)
  }

  ghost predicate Acyclic(mods: map<Id, Module>) {
    forall a, b | DependsOn(mods, a, b) :: !Reaches(mods, b, a)
  }

  lemma ReachesSelf(mods: map<Id, Module>, a: Id)
    ensures Reaches(mods, a, a)
  {
    assert IsDepPath(mods, [a]);
  }

  lemma ReachesNext(mods: map<Id, Module>, a: Id, b: Id, c: Id)
    requires Reaches(mods, a, b) && DependsOn(mods, b, c)
    ensures Reaches(mods, a, c)
  {
    var path: seq<Id> :| IsDepPath(mods, path) && path[0] == a && path[|path| - 1] == b;
    var longer := path + [c];
    forall k | 0 <= k < |longer| - 1 ensures DependsOn(mods, longer[k], longer[k + 1]) {
      if k < |path| - 1 { assert DependsOn(mods, path[k], path[k + 1]); }
    }
    assert IsDepPath(mods, longer) && longer[0] == a && longer[|longer| - 1] == c;
  }

  /** Dependencies are never taken back. */
  lemma ReachesGrows(a: map<Id, Module>, b: map<Id, Module>, x: Id, y: Id)
    requires Grows(a, b) && Reaches(a, x, y)
    ensures Reaches(b, x, y)
  {
    var path: seq<Id> :| IsDepPath(a, path) && path[0] == x && path[|path| - 1] == y;
    forall k | 0 <= k < |path| - 1 ensures DependsOn(b, path[k], path[k + 1]) {
      assert DependsOn(a, path[k], path[k + 1]) && ModuleGrows(a[path[k]], b[path[k]]);
    }
    assert IsDepPath(b, path);
  }

  lemma OnCycleGrows(a: map<Id, Module>, b: map<Id, Module>, e: (Id, nat))
    requires Grows(a, b) && OnCycle(a, e)
    ensures OnCycle(b, e)
  {
    assert ModuleGrows(a[e.0], b[e.0]);
    ReachesGrows(a, b, a[e.0].deps[e.1].Target(), e.0);
  }

  /** Every module of the region is there, enabled and without error, no outer call is working on
      it, and its dependencies lie in the region. */
  ghost predicate Quiet(mods: map<Id, Module>, region: set<Id>) {
    forall id <- region ::
      id in mods && var m := mods[id];
      && m.inited && m.enabled && !m.error && !m.Busy()
      && forall i | 0 <= i < |m.deps| && m.deps[i].On? :: Named(m.deps[i].name) in region
  }

  /** The same without asking that the modules are enabled. */
  ghost predicate Completable(mods: map<Id, Module>, region: set<Id>) {
    forall id <- region ::
      id in mods && var m := mods[id];
      && m.inited && !m.error && !m.Busy()
      && forall i | 0 <= i < |m.deps| && m.deps[i].On? :: Named(m.deps[i].name) in region
  }

  ghost function EnabledIn(mods: map<Id, Module>, region: set<Id>): set<Id> {
    set id | id in region && id in mods && mods[id].enabled
  }

  /** What is enabled has enabled all it depends on. */
  lemma EnabledIsQuiet(v: View, region: set<Id>)
    requires Inv(v, {}) && Completable(v.mods, region)
    ensures Quiet(v.mods, EnabledIn(v.mods, region))
  {
    forall id | id in EnabledIn(v.mods, region)
      ensures forall i | 0 <= i < |v.mods[id].deps| && v.mods[id].deps[i].On? ::
        v.mods[id].deps[i].Target() in EnabledIn(v.mods, region)
    {
      assert v.mods[id].Settled() && LinksOk(v, id);
    }
  }

  lemma QuietEvolves(a: map<Id, Module>, b: map<Id, Module>, region: set<Id>)
    requires Quiet(a, region) && Evolves(a, b) && NoNewErrors(a, b)
    ensures Quiet(b, region)
    ensures forall id <- region | a[id].defined :: b[id].defined
  {
    forall id | id in region ensures id in b && ModuleEvolves(a[id], b[id]) {
      assert ModuleEvolves(a[id], b[id]);
    }
  }

  ghost predicate AllDefined(mods: map<Id, Module>, ids: set<Id>) {
    forall id <- ids :: id in mods && mods[id].defined
  }
}
