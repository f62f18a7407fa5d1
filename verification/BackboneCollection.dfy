/** A Backbone collection without a comparator: its list of models, and the index kept in step with it. */
module BackboneCollection {
  import opened Wrappers

  /** A model, as far as a collection looks at it. Client ids are handed out one by one. */
  class Member {
    const cid: nat
    var id: Option<string>

    constructor (cid: nat, id: Option<string>)
      ensures this.cid == cid && this.id == id
    {
      this.cid, this.id := cid, id;
    }
  }

  /** The keys of the index: ids do not look like client ids. */
  datatype Key = Cid(n: nat) | Id(s: string)

  /** An element of the list given to `set`: a model with its id, or the attributes of one. */
  datatype Input = Model(m: Member, id: Option<string>) | Attrs(id: Option<string>, valid: bool)

  /** The index has the client id and the id of every member, and nothing else. */
  ghost predicate Indexed(models: seq<Member>, byId: map<Key, Member>)
    reads models, set k | k in byId :: byId[k]
  {
    && (forall m <- models :: HasMember(byId, m))
    && forall k {:trigger byId[k]} | k in byId :: byId[k] in models && KeyOf(k, byId[k])
  }

  ghost predicate HasMember(byId: map<Key, Member>, m: Member)
    reads m
  {
    && Cid(m.cid) in byId && byId[Cid(m.cid)] == m
    && (m.id.Some? ==> Id(m.id.value) in byId && byId[Id(m.id.value)] == m)
  }

  ghost predicate KeyOf(k: Key, m: Member)
    reads m
  {
    k == Cid(m.cid) || (m.id.Some? && k == Id(m.id.value))
  }

  ghost predicate Distinct(models: seq<Member>) {
    forall i, j | 0 <= i < j < |models| :: models[i] != models[j]
  }

  /** `this._byId[obj]` and so on: by id, or for a model by id and then by client id. */
  function Lookup(byId: map<Key, Member>, k: Key): Option<Member> {
    if k in byId then Some(byId[k]) else None
  }

  function Found(byId: map<Key, Member>, x: Input): Option<Member> {
    var first := if x.id.Some? then Lookup(byId, Id(x.id.value)) else None;
    if first.Some? || x.Attrs? then first else Lookup(byId, Cid(x.m.cid))
  }

  /** The member that an input refers to, if there is one that has not gone: the one with its id, or
      else, for a model, the one with its client id. */
  ghost predicate RefersTo(start: seq<Member>, gone: set<Member>, x: Input, r: Option<Member>)
    reads start
  {
    match r
    case None =>
      forall m <- start | m !in gone :: (x.id.Some? ==> m.id != x.id) && (x.Model? ==> m.cid != x.m.cid)
    case Some(m) =>
      && m in start && m !in gone && ((x.id.Some? && m.id == x.id) || (x.Model? && m.cid == x.m.cid))
      && (x.id.Some? && (exists n <- start :: n !in gone && n.id == x.id) ==> m.id == x.id)
  }

  lemma FoundRefers(start: seq<Member>, gone: set<Member>, members: seq<Member>, byId: map<Key, Member>, x: Input)
    requires Indexed(members, byId) && members == Minus(start, gone)
    ensures RefersTo(start, gone, x, Found(byId, x))
  {
    MinusElements(start, gone);
    forall m | m in members ensures HasMember(byId, m) {}
  }

  function IndexIn(models: seq<Member>, m: Member): (i: int)
    ensures if m in models then 0 <= i < |models| && models[i] == m else i == -1
  {
    if models == [] then -1
    else if models[0] == m then 0
    else
      var i := IndexIn(models[1..], m);
      if i == -1 then -1 else i + 1
  }

  function Without(models: seq<Member>, i: nat): seq<Member>
    requires i < |models|
  {
    models[..i] + models[i + 1..]
  }

  /** Some element has this id, or this client id. */
  ghost predicate SomeWith(s: seq<Member>, k: Key)
    reads s
  {
    exists i | 0 <= i < |s| :: KeyOf(k, s[i])
  }

  /** What the loop of `set` knows of the models it has put in order so far. */
  ghost predicate OrderOk(models: seq<Member>, toAdd: seq<Member>, order: seq<Member>, modelMap: set<Key>)
    reads models, toAdd, order
  {
    && Distinct(order)
    && (forall o <- order :: o in models || o in toAdd)
    && (forall n <- toAdd :: n in order)
    && (forall k <- modelMap :: SomeWith(order, k))
    && (forall o <- order :: (o in models ==> Cid(o.cid) in modelMap) && (o.id.Some? ==> Id(o.id.value) in modelMap))
  }

  lemma IndexedSame(s: seq<Member>, t: seq<Member>, byId: map<Key, Member>)
    requires Indexed(s, byId) && forall m :: m in s <==> m in t
    ensures Indexed(t, byId)
  {}

  lemma {:induction false} DistinctCount(s: seq<Member>)
    requires Distinct(s)
    ensures |set m | m in s| == |s|
  {
    if s != [] {
      var s', m := s[..|s| - 1], s[|s| - 1];
      DistinctCount(s');
      assert forall k | 0 <= k < |s'| :: s[k] == s'[k];
      assert (set n | n in s) == (set n | n in s') + {m};
    }
  }

  lemma SameSize(s: seq<Member>, t: seq<Member>)
    requires Distinct(s) && Distinct(t) && forall m :: m in s <==> m in t
    ensures |s| == |t|
  {
    DistinctCount(s);
    DistinctCount(t);
    assert (set m | m in s) == (set m | m in t);
  }

  lemma WithoutElements(s: seq<Member>, i: nat)
    requires i < |s| && Distinct(s)
    ensures Distinct(Without(s, i)) && forall n :: n in Without(s, i) <==> n in s && n != s[i]
  {
    var r := Without(s, i);
    assert forall k | 0 <= k < |r| :: r[k] == s[if k < i then k else k + 1];
    forall n | n in s && n != s[i] ensures n in r {
      var k :| 0 <= k < |s| && s[k] == n;
      assert r[if k < i then k else k - 1] == n;
    }
  }

  /** Taking a member out of the list and its keys out of the index. */
  lemma RemovedIndexed(s: seq<Member>, byId: map<Key, Member>, i: nat)
    requires Distinct(s) && Indexed(s, byId) && i < |s|
    ensures Indexed(Without(s, i), RemoveKeys(byId, s[i])) && Distinct(Without(s, i))
  {
    WithoutElements(s, i);
    forall m | m in Without(s, i) ensures HasMember(RemoveKeys(byId, s[i]), m) {
      assert HasMember(byId, m) && HasMember(byId, s[i]);
    }
  }

  function RemoveKeys(byId: map<Key, Member>, m: Member): map<Key, Member>
    reads m
  {
    byId - (if m.id.Some? then {Id(m.id.value)} else {}) - {Cid(m.cid)}
  }

  /** `_addReference` */
  function AddKeys(byId: map<Key, Member>, m: Member): map<Key, Member>
    reads m
  {
    var withCid := byId[Cid(m.cid) := m];
    if m.id.Some? then withCid[Id(m.id.value) := m] else withCid
  }

  lemma AddedIndexed(s: seq<Member>, byId: map<Key, Member>, m: Member)
    requires Indexed(s, byId) && Cid(m.cid) !in byId && (m.id.Some? ==> Id(m.id.value) !in byId)
    ensures Indexed(s + [m], AddKeys(byId, m)) && m !in s
  {
    assert m in s ==> HasMember(byId, m);
    forall n | n in s + [m] ensures HasMember(AddKeys(byId, m), n) {
      if n in s { assert HasMember(byId, n); }
    }
  }

  lemma OneMoreDistinct(s: seq<Member>, m: Member)
    requires Distinct(s) && m !in s
    ensures Distinct(s + [m])
  {}

  class Collection {
    var models: seq<Member>
    var length: int
    var byId: map<Key, Member>
    // The source of client ids, which all models share, and all models there are.
    var nextCid: nat
    ghost var all: set<Member>

    /** The index has the members, and also the models in `extra` that are still to be put in the list. */
    ghost predicate Keeps(extra: seq<Member>)
      reads this, all
    {
      && (forall m <- all :: m.cid < nextCid) && (forall m, n | m in all && n in all && m.cid == n.cid :: m == n)
      && (forall m <- models + extra :: m in all)
      && (forall k <- byId :: byId[k] in all)
      && Distinct(models + extra) && Indexed(models + extra, byId)
    }

    /** The list has no duplicates, `length` is its size, and the index agrees with it. */
    ghost predicate Valid()
      reads this, all
    {
      Keeps([]) && length == |models|
    }

    constructor ()
      ensures Valid() && models == []
    {
      models, length, byId, nextCid, all := [], 0, map[], 0, {};
    }

    /** `get` */
    method GetModel(x: Input) returns (r: Option<Member>)
      requires Valid()
      ensures r.Some? ==> r.value in models
      ensures x.id.Some? ==> ((exists m <- models :: m.id == x.id) ==> r.Some? && r.value.id == x.id)
      ensures x.Model? && x.m in models && x.id == x.m.id ==> r == Some(x.m)
      ensures r == Found(byId, x)
    {
      assert models + [] == models;
      r := Found(byId, x);
    }

    /** One turn of `remove`. */
    method RemoveMember(m: Member, ghost extra: seq<Member>)
      requires Keeps(extra) && m in models && length == |models|
      modifies this`models, this`length, this`byId
      ensures Keeps(extra) && length == |models| && Distinct(old(models))
      ensures m in old(models) && models == Without(old(models), IndexIn(old(models), m))
      ensures byId == RemoveKeys(old(byId), m)
    {
      byId := RemoveKeys(byId, m);
      var index := IndexIn(models, m);
      RemovedIndexed(models + extra, old(byId), index);
      assert Without(models + extra, index) == Without(models, index) + extra;
      models := models[..index] + models[index + 1..];
      length := length - 1;
      DistinctPart(old(models), extra);
    }

    /** All models among the inputs are known. */
    ghost predicate Known(inputs: seq<Input>)
      reads this, all
    {
      forall i | 0 <= i < |inputs| && inputs[i].Model? :: inputs[i].m in all && inputs[i].id == inputs[i].m.id
    }

    /** `remove`: exactly the members that were asked for go. */
    method Remove(inputs: seq<Input>) returns (removed: seq<Option<Member>>)
      requires Valid() && Known(inputs)
      modifies this`models, this`length, this`byId
      ensures Valid() && |removed| == |inputs|
      ensures models == Minus(old(models), old(Targets(byId, inputs, |inputs|)))
      ensures models == Minus(old(models), Removed(removed)) && AllRefer(old(models), inputs, removed)
    {
      removed := [];
      assert models + [] == models;
      MinusNothing(models);
      assert Removed(removed) == {};
      for i := 0 to |inputs|
        invariant |removed| == i && Removing(old(models), old(byId), inputs, removed)
      {
        var model := RemoveNext(inputs, removed, old(models), old(byId));
        removed := removed + [model];
      }
    }

    /** The state of `remove` after as many inputs as there are answers. */
    ghost predicate Removing(start: seq<Member>, index: map<Key, Member>, inputs: seq<Input>,
                             removed: seq<Option<Member>>)
      reads this, all, start
    {
      && Valid() && Known(inputs) && Distinct(start) && |removed| <= |inputs|
      && models == Minus(start, Removed(removed)) && Removed(removed) == Targets(index, inputs, |removed|)
      && (forall k | |removed| <= k < |inputs| ::
            StillFound(index, byId, inputs[k], Targets(index, inputs, |removed|)))
      && AllRefer(start, inputs, removed)
    }

    method RemoveNext(inputs: seq<Input>, removed: seq<Option<Member>>, ghost start: seq<Member>,
                      ghost index: map<Key, Member>) returns (model: Option<Member>)
      requires |removed| < |inputs| && Removing(start, index, inputs, removed)
      modifies this`models, this`length, this`byId
      ensures Removing(start, index, inputs, removed + [model])
    {
      TurnRefers(start, index, inputs, removed, |removed|);
      ghost var more := removed + [Found(byId, inputs[|removed|])];
      assert |more| == |removed| + 1;
      model := RemoveTurn(inputs, |removed|, start, index);
      assert removed + [model] == more;
    }

    lemma TurnRefers(start: seq<Member>, index: map<Key, Member>, inputs: seq<Input>, removed: seq<Option<Member>>,
                     i: nat)
      requires Valid() && i < |inputs| && |removed| == i && AllRefer(start, inputs, removed)
      requires Removed(removed) == Targets(index, inputs, i) && models == Minus(start, Removed(removed))
      requires StillFound(index, byId, inputs[i], Targets(index, inputs, i))
      ensures var more := removed + [Found(byId, inputs[i])];
        AllRefer(start, inputs, more) && Removed(more) == Targets(index, inputs, i + 1)
    {
      assert models + [] == models;
      FoundRefers(start, Removed(removed), models, byId, inputs[i]);
      AllReferNext(start, inputs, removed, Found(byId, inputs[i]));
      TargetsNext(index, byId, inputs, i);
    }

    method RemoveTurn(inputs: seq<Input>, i: nat, ghost start: seq<Member>, ghost index: map<Key, Member>)
      returns (model: Option<Member>)
      requires Valid() && Known(inputs) && i < |inputs| && Distinct(start)
      requires models == Minus(start, Targets(index, inputs, i))
      requires forall k | i <= k < |inputs| :: StillFound(index, byId, inputs[k], Targets(index, inputs, i))
      modifies this`models, this`length, this`byId
      ensures Valid() && models == Minus(start, Targets(index, inputs, i + 1))
      ensures forall k | i < k < |inputs| :: StillFound(index, byId, inputs[k], Targets(index, inputs, i + 1))
      ensures model == Found(old(byId), inputs[i])
    {
      ghost var was, before, targets := models, byId, Targets(index, inputs, i);
      model := GetModel(inputs[i]);
      assert StillFound(index, byId, inputs[i], targets);
      MinusElements(start, targets);
      if model.Some? {
        MinusOne(start, targets, model.value);
        TurnFinds(was, index, before, inputs, i, model.value, all);
        RemoveMember(model.value, []);
      } else {
        assert Targets(index, inputs, i + 1) == targets;
      }
    }

    /** `_prepareModel`: a model is taken as it is; attributes make a new one, if they are valid. */
    method PrepareModel(x: Input, ghost extra: seq<Member>) returns (model: Option<Member>)
      requires Keeps(extra) && Known([x])
      modifies this`nextCid, this`all
      ensures Keeps(extra) && old(all) <= all && (model.Some? <==> x.Model? || x.valid)
      ensures model.Some? ==> model.value in all && model.value.id == x.id
      ensures x.Model? ==> model == Some(x.m)
      ensures x.Attrs? && model.Some? ==> model.value !in old(all) && Cid(model.value.cid) !in byId
    {
      assert [x][0] == x;
      assert forall k <- byId :: k.Cid? ==> k.n < nextCid;
      if x.Model? {
        model := Some(x.m);
      } else if x.valid {
        var m := new Member(nextCid, x.id);
        nextCid, all := nextCid + 1, all + {m};
        model := Some(m);
      } else {
        model := None;
      }
    }

    /** `_addReference` */
    method AddReference(m: Member, ghost extra: seq<Member>)
      requires Keeps(extra) && m in all && Cid(m.cid) !in byId && (m.id.Some? ==> Id(m.id.value) !in byId)
      modifies this`byId
      ensures Keeps(extra + [m]) && m !in models + extra
      ensures forall k <- old(byId) :: k in byId && byId[k] == old(byId)[k]
    {
      AddedIndexed(models + extra, byId, m);
      assert models + (extra + [m]) == (models + extra) + [m];
      OneMoreDistinct(models + extra, m);
      SetReference(m);
    }

    method SetReference(m: Member)
      modifies this`byId
      ensures byId == AddKeys(old(byId), m)
    {
      byId := byId[Cid(m.cid) := m];
      if m.id.Some? {
        byId := byId[Id(m.id.value) := m];
      }
    }

    /** An input becomes a member that is there already, or a new model to be added. */
    method Resolve(x: Input, toAdd: seq<Member>) returns (model: Option<Member>, more: seq<Member>)
      requires Keeps(toAdd) && Known([x])
      modifies this`byId, this`nextCid, this`all
      ensures Keeps(more) && old(all) <= all
      ensures model.Some? <==> (x.Model? || x.valid || Found(old(byId), x).Some?)
      ensures model.Some? ==> model.value in all && model.value.id == x.id && model.value in models + more
      ensures forall k <- old(byId) :: k in byId && byId[k] == old(byId)[k]
      ensures Found(old(byId), x).Some? ==> model == Found(old(byId), x) && more == toAdd
      ensures Found(old(byId), x).None? ==>
        if model.Some? then more == toAdd + [model.value] && model.value !in models + toAdd else more == toAdd
      ensures Found(old(byId), x).None? && x.id.Some? ==> Id(x.id.value) !in old(byId)
      ensures Found(old(byId), x).None? && x.Model? ==> model == Some(x.m)
      ensures model.Some? && x.Attrs? && Found(old(byId), x).None? ==> model.value !in old(all)
      ensures model.Some? && x.Model? && x.id.None? ==> model.value == x.m
    {
      assert [x][0] == x;
      more := toAdd;
      FoundIsMember(models + toAdd, byId, x, all);
      model := Found(byId, x);
      if model.None? {
        model := PrepareModel(x, toAdd);
        if model.Some? {
          AddReference(model.value, toAdd);
          more := toAdd + [model.value];
        }
      }
    }

    /** One turn of the first loop of `set`. With `remove`, each model takes its place in the order. */
    method Take(x: Input, remove: bool, toAdd: seq<Member>, order: seq<Member>, modelMap: set<Key>)
      returns (model: Option<Member>, more: seq<Member>, nextOrder: seq<Member>, nextMap: set<Key>)
      requires Keeps(toAdd) && Known([x]) && (remove ==> OrderOk(models, toAdd, order, modelMap))
      requires remove && x.Model? && x.id.None? ==> x.m !in order
      modifies this`byId, this`nextCid, this`all
      ensures Keeps(more) && old(all) <= all && (remove ==> OrderOk(models, more, nextOrder, nextMap))
      ensures model.Some? <==> (x.Model? || x.valid || Found(old(byId), x).Some?)
      ensures model.Some? ==> model.value in all && model.value.id == x.id
      ensures Found(old(byId), x).Some? ==> model == Found(old(byId), x) && more == toAdd
      ensures Found(old(byId), x).None? ==>
        more == (if model.Some? then toAdd + [model.value] else toAdd) && (x.Model? ==> model == Some(x.m))
      ensures model.Some? && x.Attrs? && Found(old(byId), x).None? ==> model.value !in old(all)
      ensures forall k <- old(byId) :: k in byId && byId[k] == old(byId)[k]
      ensures remove ==>
        nextOrder == if model.Some? && (x.id.None? || Id(x.id.value) !in modelMap) then order + [model.value] else order
      ensures remove && model.Some? ==> model.value in nextOrder
      ensures model.Some? ==> model.value in models + more
      ensures remove ==> forall k <- nextMap :: k in modelMap || (model.Some? && KeyOf(k, model.value))
    {
      assert [x][0] == x;
      nextOrder, nextMap := order, modelMap;
      var existed := Found(byId, x).Some?;
      FoundIsMember(models + toAdd, byId, x, all);
      model, more := Resolve(x, toAdd);
      if model.Some? {
        nextOrder, nextMap := Place(model.value, existed, remove, toAdd, more, order, modelMap, old(byId));
      }
    }

    /** A model is noted, and takes its place in the order unless its id is there already. */
    method Place(m: Member, existed: bool, remove: bool, ghost toAdd: seq<Member>, ghost more: seq<Member>,
                 order: seq<Member>,
                 modelMap: set<Key>, ghost index: map<Key, Member>) returns (nextOrder: seq<Member>, nextMap: set<Key>)
      requires remove ==> Indexed(models + toAdd, index) && OrderOk(models, toAdd, order, modelMap)
      requires remove && m.id.None? ==> m !in order
      requires if existed then more == toAdd && m in models + toAdd
               else more == toAdd + [m] && m !in models + toAdd && (m.id.Some? ==> Id(m.id.value) !in index)
      ensures remove ==> OrderOk(models, more, nextOrder, nextMap)
      ensures remove ==> m in nextOrder
      ensures remove ==> nextOrder == if m.id.None? || Id(m.id.value) !in modelMap then order + [m] else order
      ensures remove ==> forall k <- nextMap :: k in modelMap || KeyOf(k, m)
    {
      nextOrder, nextMap := order, modelMap;
      if remove {
        OrderTurn(models, toAdd, more, order, modelMap, index, m, if existed then {Cid(m.cid)} else {});
      }
      if existed && remove {
        nextMap := nextMap + {Cid(m.cid)};
      }
      if remove && (m.id.None? || Id(m.id.value) !in nextMap) {
        nextOrder := nextOrder + [m];
      }
      if m.id.Some? {
        nextMap := nextMap + {Id(m.id.value)};
      }
      assert remove && m.id.None? ==> nextMap == nextMap + IdKey(m);
      assert remove && !existed ==> modelMap + {} == modelMap;
    }

    /** The first loop of `set`. */
    method TakeAll(inputs: seq<Input>, remove: bool)
      returns (result: seq<Option<Member>>, toAdd: seq<Member>, order: seq<Member>, modelMap: set<Key>)
      requires Valid() && Known(inputs) && (remove ==> NoIdlessRepeat(inputs))
      modifies this`byId, this`nextCid, this`all
      ensures Keeps(toAdd) && old(all) <= all && |result| == |inputs|
      ensures (remove ==> OrderOk(models, toAdd, order, modelMap))
      ensures forall i | 0 <= i < |inputs| :: ResultOk(inputs[i], result[i], models + toAdd)
      ensures remove ==> forall i | 0 <= i < |inputs| :: result[i].Some? ==> result[i].value in order
      ensures Given(toAdd, result) && (remove ==> Given(order, result))
      ensures remove && Clean(inputs) ==> InOrder(old(byId), inputs, |inputs|, order)
    {
      result, toAdd, order, modelMap := [], [], [], {};
      assert models + [] == models;
      for i := 0 to |inputs|
        invariant Taking(inputs, i, remove, result, toAdd, order, modelMap, old(byId), old(all))
      {
        result, toAdd, order, modelMap := TakeNext(inputs, i, remove, result, toAdd, order, modelMap, old(byId),
                                                   old(all));
      }
    }

    /** What the first loop of `set` keeps. */
    ghost predicate Taking(inputs: seq<Input>, n: nat, remove: bool, result: seq<Option<Member>>, toAdd: seq<Member>,
                           order: seq<Member>, modelMap: set<Key>, index: map<Key, Member>, before: set<Member>)
      requires n <= |inputs|
      reads this, all, models, toAdd, order, set k | 0 <= k < |result| && result[k].Some? :: result[k].value
    {
      && Keeps(toAdd) && before <= all && (remove ==> OrderOk(models, toAdd, order, modelMap))
      && (forall k <- index :: index[k] in all) && Indexed(models, index) && Grown(index, byId, toAdd)
      && Taken(models, inputs, n, remove, result, toAdd, order, index, before)
    }

    method TakeNext(inputs: seq<Input>, i: nat, remove: bool, result: seq<Option<Member>>, toAdd: seq<Member>,
                    order: seq<Member>, modelMap: set<Key>, ghost index: map<Key, Member>, ghost before: set<Member>)
      returns (nextResult: seq<Option<Member>>, nextAdd: seq<Member>, nextOrder: seq<Member>, nextMap: set<Key>)
      requires i < |inputs| && Known(inputs) && (remove ==> NoIdlessRepeat(inputs))
      requires Taking(inputs, i, remove, result, toAdd, order, modelMap, index, before)
      requires forall k | 0 <= k < |inputs| && inputs[k].Model? :: inputs[k].m in before
      modifies this`byId, this`nextCid, this`all
      ensures Taking(inputs, i + 1, remove, nextResult, nextAdd, nextOrder, nextMap, index, before) && old(all) <= all
    {
      var model;
      model, nextAdd, nextOrder, nextMap := TakeInput(inputs, i, remove, result, toAdd, order, modelMap, index, before);
      nextResult := result + [model];
      TakenNext(models, inputs, i, remove, result, toAdd, nextAdd, order, nextOrder, index, before, model);
    }

    method TakeInput(inputs: seq<Input>, i: nat, remove: bool, ghost result: seq<Option<Member>>, toAdd: seq<Member>,
                     order: seq<Member>, modelMap: set<Key>, ghost index: map<Key, Member>, ghost before: set<Member>)
      returns (model: Option<Member>, more: seq<Member>, nextOrder: seq<Member>, nextMap: set<Key>)
      requires i < |inputs| && Known(inputs) && (remove ==> NoIdlessRepeat(inputs))
      requires Taking(inputs, i, remove, result, toAdd, order, modelMap, index, before)
      requires forall k | 0 <= k < |inputs| && inputs[k].Model? :: inputs[k].m in before
      modifies this`byId, this`nextCid, this`all
      ensures Keeps(more) && old(all) <= all && (remove ==> OrderOk(models, more, nextOrder, nextMap))
      ensures ResultOk(inputs[i], model, models + more) && forall m <- models + toAdd :: m in models + more
      ensures Indexed(models, index) && Grown(index, byId, more)
      ensures remove ==> nextOrder == order || (model.Some? && nextOrder == order + [model.value])
      ensures more == toAdd || (model.Some? && more == toAdd + [model.value])
      ensures remove && model.Some? ==> model.value in nextOrder
      ensures remove && model.Some? && model.value.id.None? && model.value in before ==>
        inputs[i].Model? && inputs[i].m == model.value
      ensures remove && Clean(inputs) ==>
        model.Some? && nextOrder == order + [model.value] && Placed(index, inputs[i], model.value)
    {
      var x := inputs[i];
      assert [x][0] == x;
      if remove && x.Model? && x.id.None? { NotListed(order, inputs, i, before); }
      if remove && Clean(inputs) { CleanTurn(models, toAdd, order, modelMap, index, byId, inputs, i, all); }
      FoundIsMember(models + toAdd, byId, x, all);
      model, more, nextOrder, nextMap := Take(x, remove, toAdd, order, modelMap);
      GrownFrom(models, more, index, byId);
    }

    static method Others(models: seq<Member>, modelMap: set<Key>) returns (toRemove: seq<Member>)
      requires Distinct(models)
      ensures Distinct(toRemove) && forall m :: m in toRemove <==> m in models && Cid(m.cid) !in modelMap
    {
      toRemove := [];
      for i := 0 to |models|
        invariant forall m :: m in toRemove <==> m in models[..i] && Cid(m.cid) !in modelMap
        invariant Distinct(toRemove)
      {
        assert models[i] !in models[..i];
        if Cid(models[i].cid) !in modelMap {
          toRemove := toRemove + [models[i]];
        }
      }
      assert models[..|models|] == models;
    }

    /** The second loop of `set`: members that no input has referred to are removed. */
    method RemoveOthers(modelMap: set<Key>, ghost toAdd: seq<Member>)
      requires Keeps(toAdd) && length == |models|
      modifies this`models, this`length, this`byId
      ensures Keeps(toAdd) && length == |models|
      ensures models == Minus(old(models), Unmapped(old(models), modelMap))
      ensures forall m :: m in models <==> m in old(models) && Cid(m.cid) in modelMap
    {
      ghost var start := models;
      DistinctPart(models, toAdd);
      var toRemove := Others(models, modelMap);
      MinusNothing(models);
      assert Elements(toRemove[..0]) == {};
      for i := 0 to |toRemove|
        invariant Keeps(toAdd) && length == |models| && models == Minus(start, Elements(toRemove[..i]))
      {
        assert toRemove[i] in toRemove && toRemove[i] !in toRemove[..i];
        assert Elements(toRemove[..i + 1]) == Elements(toRemove[..i]) + {toRemove[i]};
        MinusOne(start, Elements(toRemove[..i]), toRemove[i]);
        RemoveMember(toRemove[i], toAdd);
      }
      assert Elements(toRemove[..|toRemove|]) == Unmapped(start, modelMap);
      MinusElements(start, Unmapped(start, modelMap));
    }

    /** The new models at the end, or all models in the order of the inputs. */
    method Append(remove: bool, toAdd: seq<Member>, order: seq<Member>)
      requires Keeps(toAdd) && length == |models| + |toAdd|
      requires remove ==> Distinct(order) && forall m :: m in order <==> m in models + toAdd
      modifies this`models
      ensures Valid() && models == if remove then order else old(models) + toAdd
    {
      if remove {
        SameSize(order, models + toAdd);
        IndexedSame(models + toAdd, order, byId);
        models := [];
      }
      var ordered := if remove then order else toAdd;
      ghost var start := models;
      for i := 0 to |ordered|
        invariant models == start + ordered[..i]
      {
        models := models + [ordered[i]];
      }
      assert start + ordered[..|ordered|] == if remove then order else old(models) + toAdd;
      assert models + [] == models;
    }

    /** The new models from a given place on. */
    method InsertAll(at: nat, toAdd: seq<Member>)
      requires Keeps(toAdd) && length == |models| + |toAdd|
      modifies this`models
      ensures Valid() && models == Inserted(old(models), at, toAdd)
    {
      ghost var start, p := models, if at <= |models| then at else |models|;
      assert start == start[..p] + [] + start[p..];
      for i := 0 to |toAdd|
        invariant models == start[..p] + toAdd[..i] + start[p..]
      {
        var place := if at + i <= |models| then at + i else |models|;
        assert place == p + i;
        SplicedNext(start[..p], toAdd, i, start[p..]);
        models := models[..place] + [toAdd[i]] + models[place..];
      }
      assert toAdd[..|toAdd|] == toAdd;
      InsertedElements(start, at, toAdd);
      Rearranged(start + toAdd, models);
      IndexedSame(start + toAdd, models, byId);
      assert models + [] == models;
    }

    /** `set`, without a comparator and with `add`: the inputs become members, in the order given when
        the others are removed. */
    method Set(inputs: seq<Input>, remove: bool, at: Option<nat>) returns (result: seq<Option<Member>>)
      requires Valid() && Known(inputs) && (remove ==> NoIdlessRepeat(inputs))
      modifies this
      ensures Valid() && old(all) <= all && Results(inputs, |inputs|, result, models)
      ensures !remove ==> (forall m <- old(models) :: m in models) && (at.None? ==> old(models) <= models)
      ensures forall m <- models :: Some(m) in result || (!remove && m in old(models))
      ensures remove && at.None? && Clean(inputs) ==> InOrder(old(byId), inputs, |inputs|, models)
      ensures at.Some? ==> exists gone, added ::
        PutAt(old(models), gone, added, at.value, models) && (!remove ==> gone == {})
    {
      var toAdd, order, modelMap;
      result, toAdd, order, modelMap := TakeAll(inputs, remove);
      ghost var start := models;
      ghost var gone := SwapIn(remove, at, toAdd, order, modelMap);
      assert at.Some? ==> PutAt(start, gone, toAdd, at.value, models);
    }

    /** The second half of `set`: the models that no input refers to go, the new ones come. */
    method SwapIn(remove: bool, at: Option<nat>, toAdd: seq<Member>, order: seq<Member>, modelMap: set<Key>)
      returns (ghost gone: set<Member>)
      requires Keeps(toAdd) && length == |models| && (remove ==> OrderOk(models, toAdd, order, modelMap))
      modifies this`models, this`length, this`byId
      ensures Valid() && (!remove ==> gone == {}) && forall m <- toAdd :: m !in old(models)
      ensures forall m :: m in models <==> if remove then m in order else m in old(models) || m in toAdd
      ensures at.None? ==> models == if remove then order else old(models) + toAdd
      ensures at.Some? ==> models == Inserted(Minus(old(models), gone), at.value, toAdd)
    {
      ghost var start := models;
      gone := if remove then Unmapped(models, modelMap) else {};
      NewOnes(models, toAdd);
      if remove {
        RemoveOthers(modelMap, toAdd);
        KeptAndAdded(start, models, toAdd, order, modelMap, all);
      } else {
        MinusNothing(models);
      }
      PutIn(remove, at, toAdd, order);
    }

    /** The last part of `set`: the new models are put into the list. */
    method PutIn(remove: bool, at: Option<nat>, toAdd: seq<Member>, order: seq<Member>)
      requires Keeps(toAdd) && length == |models|
      requires remove ==> Distinct(order) && (forall m :: m in order <==> m in models + toAdd)
      requires remove && order == [] && toAdd == [] ==> models == []
      modifies this`models, this`length
      ensures Valid() && forall m :: m in models <==> m in old(models) || m in toAdd
      ensures at.None? ==> models == if remove then order else old(models) + toAdd
      ensures at.Some? ==> models == Inserted(old(models), at.value, toAdd)
    {
      ghost var start := models;
      if at.Some? { InsertedElements(start, at.value, toAdd); }
      if toAdd != [] || (remove && order != []) {
        length := length + |toAdd|;
        if at.Some? {
          InsertAll(at.value, toAdd);
        } else {
          Append(remove, toAdd, order);
        }
      } else {
        assert models + [] == models;
        if at.Some? { InsertedNothing(start, at.value); }
      }
    }

    /** `add`: present members stay as they are. */
    method Add(inputs: seq<Input>, at: Option<nat>) returns (result: seq<Option<Member>>)
      requires Valid() && Known(inputs)
      modifies this
      ensures Valid() && old(all) <= all && Results(inputs, |inputs|, result, models)
      ensures (forall m <- old(models) :: m in models) && (at.None? ==> old(models) <= models)
      ensures forall m <- models :: Some(m) in result || m in old(models)
      ensures at.Some? ==> exists added :: PutAt(old(models), {}, added, at.value, models)
    {
      result := Set(inputs, false, at);
    }

    /** `reset` */
    method Reset(inputs: seq<Input>) returns (result: seq<Option<Member>>)
      requires Valid() && Known(inputs)
      modifies this
      ensures Valid() && old(all) <= all && Results(inputs, |inputs|, result, models)
      ensures forall m <- models :: Some(m) in result
    {
      models, length, byId := [], 0, map[];
      result := Add(inputs, None);
    }

    /** A member takes on an id that no other member has, and `_onModelEvent` hears of it. */
    method ChangeId(m: Member, id: Option<string>)
      requires Valid() && m in models
      requires id.Some? ==> forall n <- models :: n != m ==> n.id != id
      modifies this`byId, m`id
      ensures Valid() && m.id == id && models == old(models)
    {
      ghost var index := byId;
      assert models + [] == models;
      var previous := m.id;
      assert forall n <- models :: HasMember(index, n);
      m.id := id;
      if previous.Some? {
        byId := byId - {Id(previous.value)};
      }
      if m.id.Some? {
        byId := byId[Id(m.id.value) := m];
      }
      forall n | n in models ensures HasMember(byId, n) {
        assert old(HasMember(index, n));
      }
    }
  }

  /** `splice(at + i, 0, t[i])` for each `i`: a place beyond the end is the end. */
  ghost function Inserted(s: seq<Member>, at: nat, t: seq<Member>): seq<Member> {
    var p := if at <= |s| then at else |s|;
    s[..p] + t + s[p..]
  }

  /** New models have come in at a place, and some old ones have gone; the others keep their order. */
  ghost predicate PutAt(start: seq<Member>, gone: set<Member>, added: seq<Member>, at: nat, s: seq<Member>) {
    s == Inserted(Minus(start, gone), at, added) && forall m <- added :: m !in start
  }

  ghost function Elements(s: seq<Member>): set<Member> {
    set m | m in s
  }

  ghost function Unmapped(s: seq<Member>, modelMap: set<Key>): set<Member>
    reads Elements(s)
  {
    set m | m in s && Cid(m.cid) !in modelMap
  }

  lemma NewOnes(s: seq<Member>, t: seq<Member>)
    requires Distinct(s + t)
    ensures forall m <- t :: m !in s
  {
    forall m | m in t ensures m !in s {
      var j :| 0 <= j < |t| && t[j] == m;
      assert (s + t)[|s| + j] == m;
      forall i | 0 <= i < |s| ensures s[i] != m { assert (s + t)[i] == s[i]; }
    }
  }

  lemma SplicedNext(a: seq<Member>, t: seq<Member>, i: nat, b: seq<Member>)
    requires i < |t|
    ensures var s, place := a + t[..i] + b, |a| + i;
      s[..place] + [t[i]] + s[place..] == a + t[..i + 1] + b
  {
    var s, place := a + t[..i] + b, |a| + i;
    assert s[..place] == a + t[..i] && s[place..] == b;
    assert t[..i + 1] == t[..i] + [t[i]];
  }

  lemma InsertedElements(s: seq<Member>, at: nat, t: seq<Member>)
    ensures multiset(Inserted(s, at, t)) == multiset(s + t)
    ensures forall m :: m in Inserted(s, at, t) <==> m in s || m in t
  {
    var p := if at <= |s| then at else |s|;
    assert s == s[..p] + s[p..];
  }

  lemma InsertedNothing(s: seq<Member>, at: nat)
    ensures Inserted(s, at, []) == s
  {
    var p := if at <= |s| then at else |s|;
    assert s == s[..p] + [] + s[p..];
  }

  lemma Rearranged(s: seq<Member>, t: seq<Member>)
    requires Distinct(s) && multiset(s) == multiset(t)
    ensures Distinct(t) && |t| == |s| && forall m :: m in t <==> m in s
  {
    assert |multiset(s)| == |s| && |multiset(t)| == |t|;
    assert forall m :: m in s <==> m in multiset(s);
    assert forall m :: m in t <==> m in multiset(t);
    forall i, j | 0 <= i < j < |t| ensures t[i] != t[j] {
      DistinctMultiplicity(s, t[i]);
      assert t == t[..i] + [t[i]] + t[i + 1..j] + [t[j]] + t[j + 1..];
    }
  }

  lemma {:induction false} DistinctMultiplicity(s: seq<Member>, m: Member)
    requires Distinct(s)
    ensures multiset(s)[m] <= 1
  {
    if s != [] {
      var s' := s[..|s| - 1];
      assert s == s' + [s[|s| - 1]];
      assert forall k | 0 <= k < |s'| :: s'[k] == s[k];
      DistinctMultiplicity(s', m);
      assert s[|s| - 1] !in s';
    }
  }

  /** After the removal, the models in order are the ones kept and the ones to be added. */
  lemma KeptAndAdded(start: seq<Member>, kept: seq<Member>, toAdd: seq<Member>, order: seq<Member>,
                     modelMap: set<Key>, all: set<Member>)
    requires OrderOk(start, toAdd, order, modelMap) && (forall m <- start + toAdd :: m in all)
    requires forall a, b | a in all && b in all && a.cid == b.cid :: a == b
    requires forall m :: m in kept <==> m in start && Cid(m.cid) in modelMap
    ensures forall m :: m in order <==> m in kept + toAdd
    ensures order == [] && toAdd == [] ==> kept == []
  {
    forall m | m in kept ensures m in order {
      var i :| 0 <= i < |order| && KeyOf(Cid(m.cid), order[i]);
      assert order[i] in order && order[i] in start + toAdd && m in start + toAdd;
    }
    assert |kept| > 0 ==> kept[0] in kept;
  }

  lemma GrownFrom(models: seq<Member>, more: seq<Member>, index: map<Key, Member>, byId: map<Key, Member>)
    requires Indexed(models, index) && Indexed(models + more, byId)
    requires forall k <- index :: k in byId && byId[k] == index[k]
    ensures Grown(index, byId, more)
  {
    forall k | k in byId ensures k in index || byId[k] in more {
      assert byId[k] in models ==> HasMember(index, byId[k]);
    }
  }

  lemma InOrderNext(index: map<Key, Member>, inputs: seq<Input>, i: nat, order: seq<Member>, m: Member)
    requires i < |inputs| && InOrder(index, inputs, i, order) && m.id == inputs[i].id && Placed(index, inputs[i], m)
    ensures InOrder(index, inputs, i + 1, order + [m])
  {}

  ghost predicate Results(inputs: seq<Input>, n: nat, result: seq<Option<Member>>, s: seq<Member>)
    requires n <= |inputs|
    reads set k | 0 <= k < |result| && result[k].Some? :: result[k].value
  {
    |result| == n && forall k | 0 <= k < n :: ResultOk(inputs[k], result[k], s)
  }

  ghost predicate Taken(models: seq<Member>, inputs: seq<Input>, n: nat, remove: bool, result: seq<Option<Member>>,
                        toAdd: seq<Member>,
                        order: seq<Member>, index: map<Key, Member>, before: set<Member>)
    requires n <= |inputs|
    reads order, set k | 0 <= k < |result| && result[k].Some? :: result[k].value
  {
    && Results(inputs, n, result, models + toAdd) && Given(toAdd, result)
    && (remove ==> Given(order, result) && Ordered(result, order) && Sources(order, inputs, n, before))
    && (remove && Clean(inputs) ==> InOrder(index, inputs, n, order))
  }

  lemma TakenNext(models: seq<Member>, inputs: seq<Input>, i: nat, remove: bool, result: seq<Option<Member>>,
                  toAdd: seq<Member>,
                  nextAdd: seq<Member>, order: seq<Member>, nextOrder: seq<Member>, index: map<Key, Member>,
                   before: set<Member>,
                  model: Option<Member>)
    requires i < |inputs| && Taken(models, inputs, i, remove, result, toAdd, order, index, before)
    requires ResultOk(inputs[i], model, models + nextAdd) && forall m <- models + toAdd :: m in models + nextAdd
    requires nextAdd == toAdd || (model.Some? && nextAdd == toAdd + [model.value])
    requires remove ==> nextOrder == order || (model.Some? && nextOrder == order + [model.value])
    requires remove && model.Some? ==> model.value in nextOrder
    requires remove && model.Some? && model.value.id.None? && model.value in before ==>
      inputs[i].Model? && inputs[i].m == model.value
    requires remove && Clean(inputs) ==>
      model.Some? && nextOrder == order + [model.value] && Placed(index, inputs[i], model.value)
    ensures Taken(models, inputs, i + 1, remove, result + [model], nextAdd, nextOrder, index, before)
  {
    ResultsNext(inputs, i, result, model, models + toAdd, models + nextAdd);
    GivenNext(toAdd, nextAdd, result, model);
    if remove {
      GivenNext(order, nextOrder, result, model);
      SourcesNext(order, nextOrder, inputs, i, before, model);
      if Clean(inputs) { InOrderNext(index, inputs, i, order, model.value); }
    }
  }

  /** All of them have been given back. */
  ghost predicate Given(s: seq<Member>, result: seq<Option<Member>>) {
    forall m <- s :: Some(m) in result
  }

  lemma GivenNext(s: seq<Member>, t: seq<Member>, result: seq<Option<Member>>, model: Option<Member>)
    requires Given(s, result) && (t == s || (model.Some? && t == s + [model.value]))
    ensures Given(t, result + [model])
  {}

  ghost predicate Ordered(result: seq<Option<Member>>, order: seq<Member>) {
    forall k | 0 <= k < |result| && result[k].Some? :: result[k].value in order
  }

  lemma ResultsNext(inputs: seq<Input>, i: nat, result: seq<Option<Member>>, model: Option<Member>, s: seq<Member>,
                    t: seq<Member>)
    requires i < |inputs| && Results(inputs, i, result, s) && ResultOk(inputs[i], model, t) && forall m <- s :: m in t
    ensures Results(inputs, i + 1, result + [model], t)
  {}

  lemma SourcesNext(order: seq<Member>, next: seq<Member>, inputs: seq<Input>, i: nat, before: set<Member>,
                    model: Option<Member>)
    requires i < |inputs| && Sources(order, inputs, i, before)
    requires next == order || (model.Some? && next == order + [model.value])
    requires model.Some? && model.value.id.None? && model.value in before ==>
      inputs[i].Model? && inputs[i].m == model.value
    ensures Sources(next, inputs, i + 1, before)
  {
    forall o | o in next && o.id.None? && o in before
      ensures exists k | 0 <= k < i + 1 :: inputs[k].Model? && inputs[k].m == o
    {
      if o in order {
        var k :| 0 <= k < i && inputs[k].Model? && inputs[k].m == o;
      } else {
        assert inputs[i].m == o;
      }
    }
  }

  /** What a call gives back for an input: nothing for invalid attributes, otherwise a member. */
  ghost predicate ResultOk(x: Input, r: Option<Member>, s: seq<Member>)
    reads if r.Some? then {r.value} else {}
  {
    && (x.Model? || x.valid ==> r.Some?)
    && (r.Some? ==> r.value in s && r.value.id == x.id)
  }

  /** No model without an id is listed twice. */
  predicate NoIdlessRepeat(inputs: seq<Input>) {
    forall i, j | 0 <= i < j < |inputs| && inputs[i].Model? && inputs[j].Model? && inputs[i].id.None? ::
      inputs[i].m != inputs[j].m
  }

  /** Models or valid attributes with ids that are all different. */
  predicate Clean(inputs: seq<Input>) {
    && (forall i | 0 <= i < |inputs| :: inputs[i].id.Some? && (inputs[i].Model? || inputs[i].valid))
    && forall i, j | 0 <= i < j < |inputs| :: inputs[i].id != inputs[j].id
  }

  /** The member that was there stays; otherwise a model that was given is taken itself. */
  ghost predicate Placed(index: map<Key, Member>, x: Input, m: Member) {
    && (Found(index, x).Some? ==> m == Found(index, x).value)
    && (Found(index, x).None? && x.Model? ==> m == x.m)
  }

  ghost predicate InOrder(index: map<Key, Member>, inputs: seq<Input>, n: nat, order: seq<Member>)
    requires n <= |inputs|
    reads order
  {
    |order| == n && forall k | 0 <= k < n :: order[k].id == inputs[k].id && Placed(index, inputs[k], order[k])
  }

  /** Where the models without an id in the order come from. */
  ghost predicate Sources(order: seq<Member>, inputs: seq<Input>, n: nat, before: set<Member>)
    requires n <= |inputs|
    reads order
  {
    forall o <- order :: o.id.None? && o in before ==> exists k | 0 <= k < n :: inputs[k].Model? && inputs[k].m == o
  }

  lemma NotListed(order: seq<Member>, inputs: seq<Input>, i: nat, before: set<Member>)
    requires i < |inputs| && Sources(order, inputs, i, before) && NoIdlessRepeat(inputs)
    requires inputs[i].Model? && inputs[i].id.None? && inputs[i].m.id.None? && inputs[i].m in before
    requires forall k | 0 <= k < |inputs| && inputs[k].Model? :: inputs[k].id == inputs[k].m.id
    ensures inputs[i].m !in order
  {
    var m := inputs[i].m;
    forall k | 0 <= k < i && inputs[k].Model? ensures inputs[k].m != m {}
  }

  /** The index has got new keys only, those of the models to be added. */
  ghost predicate Grown(index: map<Key, Member>, byId: map<Key, Member>, toAdd: seq<Member>) {
    && (forall k <- index :: k in byId && byId[k] == index[k])
    && forall k <- byId :: k in index || byId[k] in toAdd
  }

  /** With clean inputs every turn finds what was there before the call, and adds to the order. */
  lemma CleanTurn(models: seq<Member>, toAdd: seq<Member>, order: seq<Member>, modelMap: set<Key>,
                  index: map<Key, Member>,
                  byId: map<Key, Member>, inputs: seq<Input>, i: nat, all: set<Member>)
    requires i < |inputs| && Clean(inputs) && OrderOk(models, toAdd, order, modelMap)
    requires InOrder(index, inputs, i, order)
    requires Indexed(models + toAdd, byId) && Grown(index, byId, toAdd) && (forall m <- models + toAdd :: m in all)
    requires inputs[i].Model? ==> inputs[i].m in all && inputs[i].m.id == inputs[i].id
    requires forall a, b | a in all && b in all && a.cid == b.cid :: a == b
    ensures Id(inputs[i].id.value) !in modelMap
    ensures Found(byId, inputs[i]) == Found(index, inputs[i])
  {
    var x := inputs[i];
    forall o | o in order ensures o.id != x.id {
      var k :| 0 <= k < |order| && order[k] == o;
    }
    if Id(x.id.value) in byId {
      assert KeyOf(Id(x.id.value), byId[Id(x.id.value)]);
    }
    if x.Model? && Cid(x.m.cid) in byId {
      assert KeyOf(Cid(x.m.cid), byId[Cid(x.m.cid)]);
      assert HasMember(byId, x.m);
    }
  }

  /** What is found is a member with that id. */
  lemma FoundIsMember(s: seq<Member>, byId: map<Key, Member>, x: Input, all: set<Member>)
    requires Indexed(s, byId) && (forall m <- s :: m in all) && (x.Model? ==> x.m in all && x.id == x.m.id)
    requires forall a, b | a in all && b in all && a.cid == b.cid :: a == b
    ensures Found(byId, x).Some? ==> Found(byId, x).value in s && Found(byId, x).value.id == x.id
    ensures Found(byId, x).Some? && x.id.None? ==> x.Model? && Found(byId, x).value == x.m
    ensures Found(byId, x).None? && x.Model? ==> Cid(x.m.cid) !in byId
  {}

  // The order in which `set` puts the models

  function IdKey(m: Member): set<Key>
    reads m
  {
    if m.id.Some? then {Id(m.id.value)} else {}
  }

  lemma OrderPush(models: seq<Member>, toAdd: seq<Member>, more: seq<Member>, order: seq<Member>, modelMap: set<Key>,
                  m: Member, cid: set<Key>)
    requires OrderOk(models, toAdd, order, modelMap) && m !in order && cid <= {Cid(m.cid)}
    requires || (m in models && more == toAdd && cid != {}) || (m !in models && more == toAdd + [m])
             || (m in toAdd && more == toAdd && cid != {})
    ensures OrderOk(models, more, order + [m], modelMap + cid + IdKey(m))
  {
    var next, nextMap := order + [m], modelMap + cid + IdKey(m);
    assert next[|order|] == m;
    assert cid != {} ==> Cid(m.cid) in cid;
    forall k | k in nextMap ensures SomeWith(next, k) {
      if k in modelMap {
        var i :| 0 <= i < |order| && KeyOf(k, order[i]);
        assert next[i] == order[i];
      }
    }
  }

  lemma OrderKeep(models: seq<Member>, toAdd: seq<Member>, order: seq<Member>, modelMap: set<Key>, m: Member)
    requires OrderOk(models, toAdd, order, modelMap) && m in order
    ensures OrderOk(models, toAdd, order, modelMap + {Cid(m.cid)} + IdKey(m))
  {
    var i :| 0 <= i < |order| && order[i] == m;
    forall k | k in modelMap + {Cid(m.cid)} + IdKey(m) ensures SomeWith(order, k) {
      if k !in modelMap { assert KeyOf(k, order[i]); }
    }
  }

  /** What a turn of `set` makes of the order. */
  lemma OrderTurn(models: seq<Member>, toAdd: seq<Member>, more: seq<Member>, order: seq<Member>, modelMap: set<Key>,
                  byId: map<Key, Member>, m: Member, cid: set<Key>)
    requires Indexed(models + toAdd, byId) && OrderOk(models, toAdd, order, modelMap)
    requires if cid == {} then more == toAdd + [m] && m !in models + toAdd && (m.id.Some? ==> Id(m.id.value) !in byId)
             else cid == {Cid(m.cid)} && more == toAdd && m in models + toAdd
    requires m.id.None? ==> m !in order
    ensures var push := m.id.None? || Id(m.id.value) !in modelMap + cid;
      (push <==> m.id.None? || Id(m.id.value) !in modelMap)
      && OrderOk(models, more, if push then order + [m] else order, modelMap + cid + IdKey(m))
      && (!push ==> m in order)
  {
    if m.id.Some? { OrderKnows(models + toAdd, byId, models, toAdd, order, modelMap, m); }
    if m.id.None? || Id(m.id.value) !in modelMap {
      OrderPush(models, toAdd, more, order, modelMap, m, cid);
    } else {
      OrderKeep(models, toAdd, order, modelMap, m);
      assert m in models + toAdd;
    }
  }

  /** Whether a model with an id has its place already is what `modelMap` tells. */
  lemma OrderKnows(s: seq<Member>, byId: map<Key, Member>, models: seq<Member>, toAdd: seq<Member>,
                   order: seq<Member>, modelMap: set<Key>, m: Member)
    requires Indexed(s, byId) && s == models + toAdd && OrderOk(models, toAdd, order, modelMap) && m.id.Some?
    requires m in s || Id(m.id.value) !in byId
    ensures Id(m.id.value) in modelMap <==> m in order
  {
    if Id(m.id.value) in modelMap {
      var i :| 0 <= i < |order| && KeyOf(Id(m.id.value), order[i]);
      assert order[i] in order && order[i] in s;
      assert HasMember(byId, order[i]);
      assert m in s ==> HasMember(byId, m);
    }
  }

  lemma TurnFinds(s: seq<Member>, index: map<Key, Member>, before: map<Key, Member>, inputs: seq<Input>, i: nat,
                  m: Member, all: set<Member>)
    requires i < |inputs| && Indexed(s + [], before) && m in s && (forall n <- s + [] :: n in all)
    requires forall k | 0 <= k < |inputs| && inputs[k].Model? :: inputs[k].m in all && inputs[k].id == inputs[k].m.id
    requires forall a, b | a in all && b in all && a.cid == b.cid :: a == b
    requires forall k | i <= k < |inputs| :: StillFound(index, before, inputs[k], Targets(index, inputs, i))
    requires Found(before, inputs[i]) == Some(m)
    ensures Targets(index, inputs, i + 1) == Targets(index, inputs, i) + {m}
    ensures forall k | i < k < |inputs| ::
      StillFound(index, RemoveKeys(before, m), inputs[k], Targets(index, inputs, i + 1))
  {
    assert s + [] == s;
    assert StillFound(index, before, inputs[i], Targets(index, inputs, i));
    forall k | i < k < |inputs|
      ensures StillFound(index, RemoveKeys(before, m), inputs[k], Targets(index, inputs, i + 1))
    {
      FoundLess(s, before, inputs[k], m, all);
      FoundLater(index, before, RemoveKeys(before, m), inputs[k], Targets(index, inputs, i), m);
    }
  }

  /** The members that the first `n` inputs refer to. */
  ghost function Targets(byId: map<Key, Member>, inputs: seq<Input>, n: nat): set<Member>
    requires n <= |inputs|
  {
    if n == 0 then {}
    else Targets(byId, inputs, n - 1) + if Found(byId, inputs[n - 1]).Some? then {Found(byId, inputs[n - 1]).value}
      else {}
  }

  /** The members that a list of answers of `get` names. */
  ghost function Removed(removed: seq<Option<Member>>): set<Member> {
    set i | 0 <= i < |removed| && removed[i].Some? :: removed[i].value
  }

  /** Each answer names what its input refers to among the members that are left when its turn comes. */
  ghost predicate AllRefer(start: seq<Member>, inputs: seq<Input>, removed: seq<Option<Member>>)
    reads start
  {
    && |removed| <= |inputs|
    && forall i | 0 <= i < |removed| :: RefersTo(start, Removed(removed[..i]), inputs[i], removed[i])
  }

  lemma AllReferNext(start: seq<Member>, inputs: seq<Input>, removed: seq<Option<Member>>, model: Option<Member>)
    requires AllRefer(start, inputs, removed) && |removed| < |inputs|
    requires RefersTo(start, Removed(removed), inputs[|removed|], model)
    ensures Removed(removed + [model]) == Removed(removed) + if model.Some? then {model.value} else {}
    ensures AllRefer(start, inputs, removed + [model])
  {
    var more := removed + [model];
    assert forall k | 0 <= k < |removed| :: more[k] == removed[k] && more[..k] == removed[..k];
    assert more[..|removed|] == removed && more[|removed|] == model;
    forall m | m in Removed(removed) ensures m in Removed(more) {
      var i :| 0 <= i < |removed| && removed[i].Some? && removed[i].value == m;
      assert more[i] == removed[i];
    }
  }

  lemma TargetsNext(index: map<Key, Member>, byId: map<Key, Member>, inputs: seq<Input>, i: nat)
    requires i < |inputs| && StillFound(index, byId, inputs[i], Targets(index, inputs, i))
    ensures Targets(index, inputs, i + 1) == Targets(index, inputs, i) +
      if Found(byId, inputs[i]).Some? then {Found(byId, inputs[i]).value} else {}
  {}

  /** An input is found unless what it refers to has gone. */
  ghost predicate StillFound(index: map<Key, Member>, byId: map<Key, Member>, x: Input, gone: set<Member>) {
    Found(byId, x) == if Found(index, x).Some? && Found(index, x).value in gone then None else Found(index, x)
  }

  lemma FoundLater(index: map<Key, Member>, before: map<Key, Member>, after: map<Key, Member>, x: Input,
                   gone: set<Member>, m: Member)
    requires StillFound(index, before, x, gone)
    requires Found(after, x) == if Found(before, x) == Some(m) then None else Found(before, x)
    ensures StillFound(index, after, x, gone + {m})
  {}

  /** The list without the models in `gone`. */
  ghost function Minus(s: seq<Member>, gone: set<Member>): seq<Member> {
    if s == [] then [] else (if s[0] in gone then [] else [s[0]]) + Minus(s[1..], gone)
  }

  lemma {:induction false} MinusNothing(s: seq<Member>)
    ensures Minus(s, {}) == s
  {
    if s != [] { MinusNothing(s[1..]); }
  }

  lemma {:induction false} MinusElements(s: seq<Member>, gone: set<Member>)
    ensures forall m :: m in Minus(s, gone) <==> m in s && m !in gone
  {
    if s != [] {
      MinusElements(s[1..], gone);
      assert forall m :: m in s <==> m == s[0] || m in s[1..];
    }
  }

  /** One more model goes. */
  ghost predicate GoesNext(s: seq<Member>, gone: set<Member>, m: Member) {
    var rest := Minus(s, gone);
    m in rest && Minus(s, gone + {m}) == Without(rest, IndexIn(rest, m))
  }

  lemma {:induction false} MinusOne(s: seq<Member>, gone: set<Member>, m: Member)
    requires Distinct(s) && m in s && m !in gone
    ensures GoesNext(s, gone, m)
  {
    var x, tail := s[0], s[1..];
    assert s == [x] + tail;
    if x == m {
      assert m !in tail;
      GoesFirst(tail, gone, m);
    } else {
      MinusOne(tail, gone, m);
      GoesLater(x, tail, gone, m);
    }
  }

  lemma GoesFirst(tail: seq<Member>, gone: set<Member>, m: Member)
    requires m !in tail && m !in gone
    ensures GoesNext([m] + tail, gone, m)
  {
    assert ([m] + tail)[1..] == tail;
    MinusAbsent(tail, gone, m);
    WithoutFirst(m, Minus(tail, gone));
  }

  lemma GoesLater(x: Member, tail: seq<Member>, gone: set<Member>, m: Member)
    requires x != m && GoesNext(tail, gone, m)
    ensures GoesNext([x] + tail, gone, m)
  {
    MinusFrom(x, tail, gone);
    MinusFrom(x, tail, gone + {m});
    if x !in gone { WithoutLater(x, Minus(tail, gone), m); }
  }

  lemma MinusFrom(x: Member, tail: seq<Member>, gone: set<Member>)
    ensures Minus([x] + tail, gone) == if x in gone then Minus(tail, gone) else [x] + Minus(tail, gone)
  {
    assert ([x] + tail)[1..] == tail;
  }

  lemma WithoutFirst(m: Member, r: seq<Member>)
    ensures IndexIn([m] + r, m) == 0 && Without([m] + r, 0) == r
  {}

  lemma WithoutLater(x: Member, r: seq<Member>, m: Member)
    requires x != m && m in r
    ensures ([x] + r)[1..] == r
    ensures m in [x] + r && Without([x] + r, IndexIn([x] + r, m)) == [x] + Without(r, IndexIn(r, m))
  {
    assert ([x] + r)[1..] == r;
    assert ([x] + r)[IndexIn(r, m) + 2..] == r[IndexIn(r, m) + 1..];
  }

  lemma {:induction false} MinusAbsent(s: seq<Member>, gone: set<Member>, m: Member)
    requires m !in s
    ensures Minus(s, gone + {m}) == Minus(s, gone)
  {
    if s != [] {
      MinusAbsent(s[1..], gone, m);
    }
  }

  /** Taking one member out of the index hides this member and no other. */
  lemma FoundLess(s: seq<Member>, byId: map<Key, Member>, x: Input, m: Member, all: set<Member>)
    requires Indexed(s, byId) && m in s && (forall n <- s :: n in all) && (x.Model? ==> x.m in all && x.id == x.m.id)
    requires forall a, b | a in all && b in all && a.cid == b.cid :: a == b
    ensures Found(RemoveKeys(byId, m), x) == if Found(byId, x) == Some(m) then None else Found(byId, x)
  {
    assert HasMember(byId, m);
    if x.Model? && Cid(x.m.cid) in byId {
      assert byId[Cid(x.m.cid)] == x.m;
      assert HasMember(byId, x.m);
    }
  }

  lemma DistinctPart(s: seq<Member>, t: seq<Member>)
    requires Distinct(s + t)
    ensures Distinct(s) && Distinct(t)
  {
    assert forall i | 0 <= i < |s| :: (s + t)[i] == s[i];
    assert forall i | 0 <= i < |t| :: (s + t)[|s| + i] == t[i];
  }
}
