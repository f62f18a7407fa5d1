/**
 Backbone's Model.set and its change log. Listeners are foreign code: while an event is being
 triggered they may call set, unset and clear again, as given by a script that is used up from the
 front. Values that `isEqual` does not tell apart are the same value here.
 */
module BackboneModel {

  datatype Value = Undefined | Defined(n: int)

  type Attributes = map<string, Value>

  function Get(m: Attributes, key: string): Value {
    if key in m then m[key] else Undefined
  }

  datatype Action =
    | SetAll(attrs: seq<(string, Value)>, unset: bool, silent: bool, valid: bool)
    | Unset(key: string, silent: bool, valid: bool)
    | Clear(order: seq<string>, silent: bool, valid: bool)
    | Return

  /** What happens to a model, apart from silent changes: a set that altered attributes, and events. */
  datatype Happening = Altered(keys: seq<string>) | ChangeOf(key: string, value: Value) | Change

  predicate DistinctKeys(attrs: seq<(string, Value)>) {
    forall i, j | 0 <= i < j < |attrs| :: attrs[i].0 != attrs[j].0
  }

  /** Nothing is unset along with a value. `unset` and `clear` always pass undefined. */
  ghost predicate Tame(attrs: seq<(string, Value)>, unset: bool) {
    unset ==> forall i | 0 <= i < |attrs| :: attrs[i].1 == Undefined
  }

  ghost predicate TameAction(action: Action) {
    action.SetAll? ==> Tame(action.attrs, action.unset)
  }

  ghost predicate TameScript(script: seq<Action>) {
    forall i | 0 <= i < |script| :: TameAction(script[i])
  }

  /** `changed` has exactly the attributes that differ from the snapshot, with their present values. */
  ghost predicate LogsChanges(current: Attributes, prev: Attributes, changed: Attributes) {
    forall a {:trigger a in changed} {:trigger Get(current, a)} ::
      && (a in changed <==> Get(current, a) != Get(prev, a))
      && (a in changed ==> changed[a] == Get(current, a))
  }

  /** Every set that altered something is followed by a "change" event. */
  ghost predicate Answered(log: seq<Happening>) {
    forall i | 0 <= i < |log| && log[i].Altered? :: ChangeFrom(log, i)
  }

  ghost predicate ChangeFrom(log: seq<Happening>, i: nat) {
    exists j | i <= j < |log| :: log[j].Change?
  }

  /** The step for one attribute: the change log, and the attribute itself. */
  function LogOne(prev: Attributes, changed: Attributes, key: string, val: Value): Attributes {
    if Get(prev, key) != val then changed[key := val] else changed - {key}
  }

  function PutOne(current: Attributes, key: string, val: Value, unset: bool): Attributes {
    if unset then current - {key} else current[key := val]
  }

  /** All attributes of a call. */
  function PutAll(current: Attributes, attrs: seq<(string, Value)>, unset: bool): Attributes {
    if attrs == [] then current
    else PutOne(PutAll(current, attrs[..|attrs| - 1], unset), attrs[|attrs| - 1].0, attrs[|attrs| - 1].1, unset)
  }

  /** The attributes that a call really alters. */
  function Alterations(current: Attributes, attrs: seq<(string, Value)>): seq<string> {
    if attrs == [] then []
    else
      var last := attrs[|attrs| - 1];
      Alterations(current, attrs[..|attrs| - 1]) + if Get(current, last.0) != last.1 then [last.0] else []
  }

  /** The call passes another value for this attribute than it had. */
  ghost predicate Differs(before: Attributes, attrs: seq<(string, Value)>, key: string) {
    exists i :: 0 <= i < |attrs| && attrs[i].0 == key && attrs[i].1 != Get(before, key)
  }

  ghost predicate SomeDiffer(before: Attributes, attrs: seq<(string, Value)>) {
    exists i :: 0 <= i < |attrs| && attrs[i].1 != Get(before, attrs[i].0)
  }

  /** Each attribute passed with another value than it had is announced, from some place in the log on. */
  ghost predicate AllTold(before: Attributes, attrs: seq<(string, Value)>, log: seq<Happening>, from: nat) {
    forall i | 0 <= i < |attrs| && attrs[i].1 != Get(before, attrs[i].0) :: AnnouncedAfter(attrs[i].0, log, from)
  }

  /** And no others are, with no other value than the new one. */
  ghost predicate OnlyTold(before: Attributes, attrs: seq<(string, Value)>, unset: bool, log: seq<Happening>,
                           from: nat)
  {
    forall j | from <= j < |log| && log[j].ChangeOf? :: exists i | 0 <= i < |attrs| ::
      && attrs[i].0 == log[j].key && attrs[i].1 != Get(before, attrs[i].0)
      && log[j].value == if unset then Undefined else attrs[i].1
  }

  lemma {:induction false} AlterationsAre(current: Attributes, attrs: seq<(string, Value)>, key: string)
    requires DistinctKeys(attrs)
    ensures key in Alterations(current, attrs) <==> Differs(current, attrs, key)
  {
    if attrs != [] {
      var n := |attrs| - 1;
      AlterationsAre(current, attrs[..n], key);
      if i :| 0 <= i < |attrs| && attrs[i].0 == key && attrs[i].1 != Get(current, key) {
        assert i < n ==> attrs[..n][i].0 == key;
      }
    }
  }

  /** They come once each, and in the order in which they were passed. */
  lemma {:induction false} AlterationsInOrder(current: Attributes, attrs: seq<(string, Value)>, p: nat, q: nat)
    returns (i: nat, j: nat)
    requires p < q < |Alterations(current, attrs)|
    ensures i < j < |attrs|
    ensures attrs[i].0 == Alterations(current, attrs)[p] && attrs[j].0 == Alterations(current, attrs)[q]
  {
    var n := |attrs| - 1;
    var front := Alterations(current, attrs[..n]);
    if q < |front| {
      i, j := AlterationsInOrder(current, attrs[..n], p, q);
    } else {
      i := AlterationAt(current, attrs[..n], p);
      j := n;
    }
  }

  lemma {:induction false} AlterationAt(current: Attributes, attrs: seq<(string, Value)>, p: nat) returns (i: nat)
    requires p < |Alterations(current, attrs)|
    ensures i < |attrs| && attrs[i].0 == Alterations(current, attrs)[p] && attrs[i].1 != Get(current, attrs[i].0)
  {
    var n := |attrs| - 1;
    if p < |Alterations(current, attrs[..n])| {
      i := AlterationAt(current, attrs[..n], p);
    } else {
      i := n;
    }
  }

  lemma {:induction false} IsAltered(current: Attributes, attrs: seq<(string, Value)>, i: nat) returns (p: nat)
    requires i < |attrs| && attrs[i].1 != Get(current, attrs[i].0)
    ensures p < |Alterations(current, attrs)| && Alterations(current, attrs)[p] == attrs[i].0
  {
    var n := |attrs| - 1;
    if i < n {
      p := IsAltered(current, attrs[..n], i);
    } else {
      p := |Alterations(current, attrs[..n])|;
    }
  }

  /** When no listener makes changes of its own, a call tells what it has altered and nothing else. */
  lemma ToldExactly(before: Attributes, attrs: seq<(string, Value)>, unset: bool, log: seq<Happening>,
                    told: seq<Happening>, nested: bool)
    requires DistinctKeys(attrs)
    requires told == log + EventsOf(Alterations(before, attrs), PutAll(before, attrs, unset), nested)
    ensures OnlyTold(before, attrs, unset, told, |log|)
    ensures ChangeFrom(told, |log|) <==> !nested && SomeDiffer(before, attrs)
  {
    var keys, after := Alterations(before, attrs), PutAll(before, attrs, unset);
    var events := EventsOf(keys, after, nested);
    forall j | |log| <= j < |told| && told[j].ChangeOf?
      ensures exists i | 0 <= i < |attrs| ::
        && attrs[i].0 == told[j].key && attrs[i].1 != Get(before, attrs[i].0)
        && told[j].value == if unset then Undefined else attrs[i].1
    {
      assert told[j] == events[j - |log|];
      EventAt(keys, after, nested, j - |log|);
      var i := ToldAt(before, attrs, unset, j - |log| - 1);
    }
    ChangeExactly(before, attrs, log, told, nested, after);
  }

  lemma EventAt(keys: seq<string>, after: Attributes, nested: bool, k: nat)
    requires k < |EventsOf(keys, after, nested)|
    ensures var event := EventsOf(keys, after, nested)[k];
      event.ChangeOf? ==> 1 <= k <= |keys| && event == ChangeOf(keys[k - 1], Get(after, keys[k - 1]))
  {
    AnnouncementsAt(keys, after);
    if 1 <= k <= |keys| {
      assert EventsOf(keys, after, nested)[k] == Announcements(keys, after)[k - 1];
    }
  }

  lemma ToldAt(before: Attributes, attrs: seq<(string, Value)>, unset: bool, p: nat) returns (i: nat)
    requires DistinctKeys(attrs) && p < |Alterations(before, attrs)|
    ensures i < |attrs| && attrs[i].0 == Alterations(before, attrs)[p] && attrs[i].1 != Get(before, attrs[i].0)
    ensures Get(PutAll(before, attrs, unset), attrs[i].0) == if unset then Undefined else attrs[i].1
  {
    i := AlterationAt(before, attrs, p);
    CallAt(before, before, map[], attrs, unset, i);
  }

  lemma ChangeExactly(before: Attributes, attrs: seq<(string, Value)>, log: seq<Happening>, told: seq<Happening>,
                      nested: bool, after: Attributes)
    requires told == log + EventsOf(Alterations(before, attrs), after, nested)
    ensures ChangeFrom(told, |log|) <==> !nested && SomeDiffer(before, attrs)
  {
    var keys := Alterations(before, attrs);
    AnnouncementsAt(keys, after);
    if keys != [] {
      var i := AlterationAt(before, attrs, 0);
      if !nested { assert told[|told| - 1].Change?; }
    } else if i :| 0 <= i < |attrs| && attrs[i].1 != Get(before, attrs[i].0) {
      var p := IsAltered(before, attrs, i);
    }
  }

  /** Whatever listeners do. */
  lemma AlteredAreTold(before: Attributes, attrs: seq<(string, Value)>, log: seq<Happening>, from: nat)
    requires AllAnnounced(Alterations(before, attrs), log, from)
    ensures AllTold(before, attrs, log, from)
  {
    forall i | 0 <= i < |attrs| && attrs[i].1 != Get(before, attrs[i].0) ensures AnnouncedAfter(attrs[i].0, log, from) {
      var p := IsAltered(before, attrs, i);
    }
  }

  /** `changed` has the right attributes, whatever values it has for them. */
  ghost predicate LogsKeys(current: Attributes, prev: Attributes, changed: Attributes) {
    forall a {:trigger a in changed} {:trigger Get(current, a)} :: a in changed <==> Get(current, a) != Get(prev, a)
  }

  /** The change log after a call. */
  function LogAll(prev: Attributes, changed: Attributes, attrs: seq<(string, Value)>): Attributes {
    if attrs == [] then changed
    else LogOne(prev, LogAll(prev, changed, attrs[..|attrs| - 1]), attrs[|attrs| - 1].0, attrs[|attrs| - 1].1)
  }

  /** What a call must be like for `changed` to keep the right keys: an attribute that is unset along
      with a value had another value in the snapshot, and was there. */
  ghost predicate KeepsKeys(prev: Attributes, attr: (string, Value), unset: bool) {
    !unset || attr.1 == Undefined || (Get(prev, attr.0) != attr.1 && Get(prev, attr.0) != Undefined)
  }

  lemma {:induction false} LogAllElsewhere(prev: Attributes, changed: Attributes, attrs: seq<(string, Value)>,
                                           key: string)
    requires forall i | 0 <= i < |attrs| :: attrs[i].0 != key
    ensures key in LogAll(prev, changed, attrs) <==> key in changed
    ensures key in changed ==> LogAll(prev, changed, attrs)[key] == changed[key]
  {
    if attrs != [] {
      LogAllElsewhere(prev, changed, attrs[..|attrs| - 1], key);
    }
  }

  /** Attribute by attribute: what a call leaves behind is decided by its own step alone. */
  lemma {:induction false} CallAt(current: Attributes, prev: Attributes, changed: Attributes,
                                  attrs: seq<(string, Value)>, unset: bool, i: nat)
    requires DistinctKeys(attrs) && i < |attrs|
    ensures var key, val := attrs[i].0, attrs[i].1; var log := LogAll(prev, changed, attrs);
      && Get(PutAll(current, attrs, unset), key) == (if unset then Undefined else val)
      && (key in log <==> Get(prev, key) != val) && (key in log ==> log[key] == val)
  {
    var front, last := attrs[..|attrs| - 1], attrs[|attrs| - 1];
    if i < |attrs| - 1 {
      CallAt(current, prev, changed, front, unset, i);
      PutAllOver(PutAll(current, front, unset), last, unset, attrs[i].0);
    }
  }

  /** After a whole call on a right log, `changed` has the right keys exactly under this condition. */
  lemma UnsetKeepsKeys(current: Attributes, prev: Attributes, changed: Attributes, attrs: seq<(string, Value)>,
                       unset: bool)
    requires LogsKeys(current, prev, changed) && DistinctKeys(attrs)
    ensures LogsKeys(PutAll(current, attrs, unset), prev, LogAll(prev, changed, attrs)) <==>
      forall i | 0 <= i < |attrs| :: KeepsKeys(prev, attrs[i], unset)
  {
    var after, log := PutAll(current, attrs, unset), LogAll(prev, changed, attrs);
    forall i | 0 <= i < |attrs|
      ensures KeepsKeys(prev, attrs[i], unset) <==>
        (attrs[i].0 in log <==> Get(after, attrs[i].0) != Get(prev, attrs[i].0))
    {
      CallAt(current, prev, changed, attrs, unset, i);
    }
    forall a | forall i | 0 <= i < |attrs| :: attrs[i].0 != a ensures a in log <==> Get(after, a) != Get(prev, a) {
      LogAllElsewhere(prev, changed, attrs, a);
      PutAllElsewhere(current, attrs, unset, a);
    }
  }

  /** After a whole call on a right log, the log is right exactly if nothing was unset along with a
      value. Otherwise it has that value, or nothing, for an attribute that is gone. */
  lemma UnsetLogsChange(current: Attributes, prev: Attributes, changed: Attributes, attrs: seq<(string, Value)>,
                        unset: bool)
    requires LogsChanges(current, prev, changed) && DistinctKeys(attrs)
    ensures LogsChanges(PutAll(current, attrs, unset), prev, LogAll(prev, changed, attrs)) <==> Tame(attrs, unset)
  {
    var after, log := PutAll(current, attrs, unset), LogAll(prev, changed, attrs);
    forall i | 0 <= i < |attrs|
      ensures !unset || attrs[i].1 == Undefined <==>
        (attrs[i].0 in log <==> Get(after, attrs[i].0) != Get(prev, attrs[i].0))
          && (attrs[i].0 in log ==> log[attrs[i].0] == Get(after, attrs[i].0))
    {
      CallAt(current, prev, changed, attrs, unset, i);
    }
    forall a | forall i | 0 <= i < |attrs| :: attrs[i].0 != a
      ensures (a in log <==> Get(after, a) != Get(prev, a)) && (a in log ==> log[a] == Get(after, a))
    {
      LogAllElsewhere(prev, changed, attrs, a);
      PutAllElsewhere(current, attrs, unset, a);
    }
  }

  /** A change can even be lost altogether: the attribute goes, and nothing says so. */
  lemma UnsetWithValueLosesChange()
    ensures exists current: Attributes, key, val ::
      LogsChanges(current, current, map[]) && key !in LogOne(current, map[], key, val)
        && Get(PutOne(current, key, val, true), key) != Get(current, key)
  {
    var current: Attributes := map["a" := Defined(5)];
    assert LogsChanges(current, current, map[]);
    assert "a" !in LogOne(current, map[], "a", Defined(5));
    assert Get(PutOne(current, "a", Defined(5), true), "a") != Get(current, "a");
  }

  lemma {:induction false} PutAllElsewhere(current: Attributes, attrs: seq<(string, Value)>, unset: bool, key: string)
    requires forall i | 0 <= i < |attrs| :: attrs[i].0 != key
    ensures Get(PutAll(current, attrs, unset), key) == Get(current, key)
  {
    if attrs != [] {
      PutAllElsewhere(current, attrs[..|attrs| - 1], unset, key);
    }
  }

  /** What stands in an attribute that has been set. */
  lemma {:induction false} PutAllGets(current: Attributes, attrs: seq<(string, Value)>, unset: bool, i: nat)
    requires i < |attrs| && DistinctKeys(attrs) && (unset ==> attrs[i].1 == Undefined)
    ensures Get(PutAll(current, attrs, unset), attrs[i].0) == attrs[i].1
  {
    if i < |attrs| - 1 {
      PutAllGets(current, attrs[..|attrs| - 1], unset, i);
      PutAllOver(PutAll(current, attrs[..|attrs| - 1], unset), attrs[|attrs| - 1], unset, attrs[i].0);
    }
  }

  lemma PutAllOver(current: Attributes, last: (string, Value), unset: bool, key: string)
    requires last.0 != key
    ensures Get(PutOne(current, last.0, last.1, unset), key) == Get(current, key)
  {}

  class Model {
    const idAttribute: string
    var attributes: Attributes
    var previousAttributes: Attributes
    var changed: Attributes
    var id: Value
    var changing: bool
    var pending: bool
    ghost var log: seq<Happening>

    ghost predicate Valid()
      reads this
    {
      (pending ==> changing) && (!pending ==> Answered(log))
    }

    ghost predicate LogRight()
      reads this
    {
      LogsChanges(attributes, previousAttributes, changed)
    }

    ghost predicate IdRight()
      reads this
    {
      id == Get(attributes, idAttribute)
    }

    constructor (idAttribute: string)
      ensures Valid() && IdRight() && LogRight() && !changing && attributes == map[] && changed == map[] && log == []
      ensures this.idAttribute == idAttribute
    {
      this.idAttribute := idAttribute;
      attributes, previousAttributes, changed := map[], map[], map[];
      id, changing, pending, log := Undefined, false, false, [];
    }

    /** `set` */
    method Set(attrs: seq<(string, Value)>, unset: bool, silent: bool, valid: bool, script: seq<Action>)
      returns (ok: bool, rest: seq<Action>)
      requires Valid() && DistinctKeys(attrs)
      modifies this
      ensures Valid() && changing == old(changing) && old(log) <= log && |rest| <= |script| && ok == valid
      ensures !valid ==> attributes == old(attributes) && changed == old(changed) && id == old(id)
      ensures !valid ==> log == old(log) && pending == old(pending)
      ensures Tame(attrs, unset) && TameScript(script) && valid && (old(changing) ==> old(LogRight())) ==> LogRight()
      ensures Tame(attrs, unset) && TameScript(script) && old(IdRight()) ==> IdRight()
      ensures TameScript(script) ==> TameScript(rest)
      ensures valid ==> previousAttributes == if old(changing) then old(previousAttributes) else old(attributes)
      ensures !valid ==> previousAttributes == old(previousAttributes)
      ensures !changing ==> Answered(log)
      ensures valid && silent ==>
        rest == script && attributes == PutAll(old(attributes), attrs, unset) && log == old(log)
      ensures valid && !silent && Alterations(old(attributes), attrs) != [] ==>
        |log| > |old(log)| && log[|old(log)|] == Altered(Alterations(old(attributes), attrs))
      ensures script == [] && valid ==> attributes == PutAll(old(attributes), attrs, unset)
      ensures valid && !silent ==> AllAnnounced(Alterations(old(attributes), attrs), log, |old(log)|)
      ensures valid && !silent ==> AllTold(old(attributes), attrs, log, |old(log)|)
      ensures valid && !silent && !changing && SomeDiffer(old(attributes), attrs) ==> ChangeFrom(log, |old(log)|)
      ensures script == [] && valid && !silent ==>
        && log == old(log) + EventsOf(Alterations(old(attributes), attrs), attributes, changing)
        && OnlyTold(old(attributes), attrs, unset, log, |old(log)|)
        && (ChangeFrom(log, |old(log)|) <==> !changing && SomeDiffer(old(attributes), attrs))
      ensures (script == [] || silent) && valid ==>
        changed == LogAll(previousAttributes, if old(changing) then old(changed) else map[], attrs)
      ensures changing && old(pending) ==> pending
      decreases |script|, 4
    {
      rest := script;
      if !valid {
        return false, rest;
      }
      ok := true;
      var wasChanging := changing;
      var changes := Begin(attrs, unset, silent);
      if !silent {
        rest := Tell(changes, wasChanging, rest, attrs, unset, old(attributes), old(log));
      }
      if !wasChanging {
        pending := false;
        changing := false;
      }
    }

    lemma EventsTold(before: Attributes, attrs: seq<(string, Value)>, earlier: seq<Happening>, changes: seq<string>,
                     unset: bool, nested: bool, alone: bool)
      requires DistinctKeys(attrs) && changes == Alterations(before, attrs) && AllAnnounced(changes, log, |earlier|)
      requires !nested ==> Answered(log)
      requires changes != [] ==> |log| > |earlier| && log[|earlier|].Altered?
      requires alone ==>
        attributes == PutAll(before, attrs, unset) && log == earlier + EventsOf(changes, attributes, nested)
      ensures AllTold(before, attrs, log, |earlier|)
      ensures !nested && SomeDiffer(before, attrs) ==> ChangeFrom(log, |earlier|)
      ensures alone ==>
        && OnlyTold(before, attrs, unset, log, |earlier|)
        && (ChangeFrom(log, |earlier|) <==> !nested && SomeDiffer(before, attrs))
    {
      AlteredAreTold(before, attrs, log, |earlier|);
      if alone { ToldExactly(before, attrs, unset, earlier, log, nested); }
      if !nested && SomeDiffer(before, attrs) {
        var i :| 0 <= i < |attrs| && attrs[i].1 != Get(before, attrs[i].0);
        var p := IsAltered(before, attrs, i);
      }
    }

    /** The events of a call, in terms of what was passed and of the attributes before. */
    method Tell(changes: seq<string>, nested: bool, script: seq<Action>, ghost attrs: seq<(string, Value)>,
                ghost unset: bool, ghost before: Attributes, ghost earlier: seq<Happening>)
      returns (rest: seq<Action>)
      requires Valid() && changing && (changes != [] ==> pending) && (!nested && pending ==> changes != [])
      requires DistinctKeys(attrs) && changes == Alterations(before, attrs)
      requires attributes == PutAll(before, attrs, unset)
      requires log == earlier + if changes != [] then [Altered(changes)] else []
      modifies this
      ensures Valid() && changing && previousAttributes == old(previousAttributes) && old(log) <= log
      ensures |rest| <= |script|
      ensures if nested then old(pending) ==> pending else !pending
      ensures AllAnnounced(changes, log, |earlier|) && AllTold(before, attrs, log, |earlier|)
      ensures !nested && SomeDiffer(before, attrs) ==> ChangeFrom(log, |earlier|)
      ensures script == [] ==>
        && attributes == old(attributes) && changed == old(changed)
        && log == earlier + EventsOf(changes, attributes, nested) && OnlyTold(before, attrs, unset, log, |earlier|)
        && (ChangeFrom(log, |earlier|) <==> !nested && SomeDiffer(before, attrs))
      ensures TameScript(script) ==>
        TameScript(rest) && (old(IdRight()) ==> IdRight()) && (old(LogRight()) ==> LogRight())
      decreases |script|, 3, 1
    {
      rest := Trigger(changes, nested, script);
      AnnouncedEarlier(changes, log, |earlier|, |old(log)|);
      EventsTold(before, attrs, earlier, changes, unset, nested, script == []);
    }

    /** The events of a call: "change:" for each attribute that was altered, and, unless an outer call does
        that later, "change" for as long as there is need. */
    method Trigger(changes: seq<string>, nested: bool, script: seq<Action>) returns (rest: seq<Action>)
      requires Valid() && changing && (changes != [] ==> pending)
      modifies this
      ensures Valid() && changing && previousAttributes == old(previousAttributes) && old(log) <= log
      ensures |rest| <= |script|
      ensures if nested then old(pending) ==> pending else !pending
      ensures AllAnnounced(changes, log, |old(log)|)
      ensures script == [] ==> attributes == old(attributes) && changed == old(changed)
      ensures script == [] ==>
        log == old(log) + Announcements(changes, attributes) + if !nested && old(pending) then [Change] else []
      ensures TameScript(script) ==>
        TameScript(rest) && (old(IdRight()) ==> IdRight()) && (old(LogRight()) ==> LogRight())
      decreases |script|, 3, 0
    {
      ghost var before := log;
      rest := TriggerChanges(changes, script);
      if !nested {
        ghost var told := log;
        rest := TriggerPending(rest);
        StillAnnounced(changes, told, log, |before|);
      }
    }

    /** Up to the first event: the snapshot of an outermost call, the new values, and the log of changes. */
    method Begin(attrs: seq<(string, Value)>, unset: bool, silent: bool) returns (changes: seq<string>)
      requires Valid() && DistinctKeys(attrs)
      modifies this
      ensures Valid() && changing && changes == Alterations(old(attributes), attrs)
      ensures previousAttributes == if old(changing) then old(previousAttributes) else old(attributes)
      ensures attributes == PutAll(old(attributes), attrs, unset)
      ensures changed == LogAll(previousAttributes, if old(changing) then old(changed) else map[], attrs)
      ensures pending <==> old(pending) || (!silent && changes != [])
      ensures log == old(log) + if !silent && changes != [] then [Altered(changes)] else []
      ensures Tame(attrs, unset) && (old(changing) ==> old(LogRight())) ==> LogRight()
      ensures Tame(attrs, unset) && old(IdRight()) ==> IdRight()
    {
      if !changing {
        previousAttributes := attributes;
        changed := map[];
      }
      changing := true;
      changes := Update(attrs, unset);
      if !silent && changes != [] {
        pending := true;
        log := log + [Altered(changes)];
      }
    }

    /** The loop over the attributes of the call. */
    method Update(attrs: seq<(string, Value)>, unset: bool) returns (changes: seq<string>)
      requires DistinctKeys(attrs)
      modifies this`attributes, this`changed, this`id
      ensures attributes == PutAll(old(attributes), attrs, unset)
      ensures changed == LogAll(previousAttributes, old(changed), attrs)
      ensures Tame(attrs, unset) && old(IdRight()) ==> IdRight()
      ensures Tame(attrs, unset) && old(LogRight()) ==> LogRight()
      ensures changes == Alterations(old(attributes), attrs)
    {
      changes := [];
      SetId(attrs);
      for i := 0 to |attrs|
        invariant IdFrom(attrs, old(id))
        invariant attributes == PutAll(old(attributes), attrs[..i], unset)
        invariant changed == LogAll(previousAttributes, old(changed), attrs[..i])
        invariant changes == Alterations(old(attributes), attrs[..i])
      {
        var (attr, val) := attrs[i];
        assert attrs[..i + 1][..i] == attrs[..i];
        PutAllElsewhere(old(attributes), attrs[..i], unset, attr);
        if Get(attributes, attr) != val {
          changes := changes + [attr];
        }
        if Get(previousAttributes, attr) != val {
          changed := changed[attr := val];
        } else {
          changed := changed - {attr};
        }
        attributes := if unset then attributes - {attr} else attributes[attr := val];
      }
      assert attrs[..|attrs|] == attrs;
      if old(LogRight()) {
        UnsetLogsChange(old(attributes), previousAttributes, old(changed), attrs, unset);
      }
      UpdatedId(attrs, unset, old(attributes), old(id));
    }

    lemma UpdatedId(attrs: seq<(string, Value)>, unset: bool, before: Attributes, oldId: Value)
      requires DistinctKeys(attrs) && IdFrom(attrs, oldId) && attributes == PutAll(before, attrs, unset)
      ensures Tame(attrs, unset) && oldId == Get(before, idAttribute) ==> IdRight()
    {
      if k :| 0 <= k < |attrs| && attrs[k].0 == idAttribute {
        if Tame(attrs, unset) { PutAllGets(before, attrs, unset, k); }
      } else {
        PutAllElsewhere(before, attrs, unset, idAttribute);
      }
    }

    /** `if (this.idAttribute in attrs) this.id = attrs[this.idAttribute]` */
    method SetId(attrs: seq<(string, Value)>)
      requires DistinctKeys(attrs)
      modifies this`id
      ensures IdFrom(attrs, old(id))
    {
      for i := 0 to |attrs|
        invariant (forall k | 0 <= k < i :: attrs[k].0 != idAttribute) && id == old(id)
      {
        if attrs[i].0 == idAttribute {
          id := attrs[i].1;
          return;
        }
      }
    }

    ghost predicate IdFrom(attrs: seq<(string, Value)>, before: Value)
      reads this`id
    {
      if exists k :: 0 <= k < |attrs| && attrs[k].0 == idAttribute then
        forall k | 0 <= k < |attrs| && attrs[k].0 == idAttribute :: id == attrs[k].1
      else id == before
    }

    /** One "change:" event for each attribute that was altered, with the value it has by then. */
    method TriggerChanges(changes: seq<string>, script: seq<Action>) returns (rest: seq<Action>)
      requires Valid() && changing && (changes != [] ==> pending)
      modifies this
      ensures AllAnnounced(changes, log, |old(log)|)
      ensures script == [] ==> log == old(log) + Announcements(changes, attributes) && pending == old(pending)
      ensures Valid() && changing && previousAttributes == old(previousAttributes) && old(log) <= log
      ensures |rest| <= |script|
      ensures script == [] ==> attributes == old(attributes) && changed == old(changed)
      ensures old(pending) ==> pending
      ensures TameScript(script) ==>
        TameScript(rest) && (old(IdRight()) ==> IdRight()) && (old(LogRight()) ==> LogRight())
      decreases |script|, 2
    {
      rest := script;
      for i := 0 to |changes|
        invariant AllAnnounced(changes[..i], log, |old(log)|)
        invariant script == [] ==> log == old(log) + Announcements(changes[..i], attributes) && pending == old(pending)
        invariant Valid() && changing && previousAttributes == old(previousAttributes) && old(log) <= log
        invariant |rest| <= |script|
        invariant script == [] ==> attributes == old(attributes) && changed == old(changed)
        invariant old(pending) ==> pending
        invariant TameScript(script) ==>
          TameScript(rest) && (old(IdRight()) ==> IdRight()) && (old(LogRight()) ==> LogRight())
      {
        rest := TellChange(changes, i, |old(log)|, rest);
      }
      assert changes[..|changes|] == changes;
    }

    method TellChange(changes: seq<string>, i: nat, ghost from: nat, script: seq<Action>) returns (rest: seq<Action>)
      requires Valid() && changing && i < |changes| && pending && from <= |log| && AllAnnounced(changes[..i], log, from)
      modifies this
      ensures Valid() && changing && previousAttributes == old(previousAttributes) && old(log) <= log
      ensures |rest| <= |script|
      ensures AllAnnounced(changes[..i + 1], log, from) && pending
      ensures Announcements(changes[..i + 1], old(attributes))
        == Announcements(changes[..i], old(attributes)) + [ChangeOf(changes[i], Get(old(attributes), changes[i]))]
      ensures script == [] ==>
        && log == old(log) + [ChangeOf(changes[i], Get(attributes, changes[i]))]
        && attributes == old(attributes) && changed == old(changed)
      ensures script != [] ==> Effective(script[0], old(attributes), log, |old(log)| + 1)
      ensures TameScript(script) ==>
        TameScript(rest) && (old(IdRight()) ==> IdRight()) && (old(LogRight()) ==> LogRight())
      decreases |script|, 1, 0
    {
      ghost var before := log;
      log := log + [ChangeOf(changes[i], Get(attributes, changes[i]))];
      OneMore(changes, i, before, log, from, attributes);
      ghost var told := log;
      rest := RunForeign(script);
      StillAnnounced(changes[..i + 1], told, log, from);
    }

    /** "change" events, for as long as listeners make new changes. */
    method TriggerPending(script: seq<Action>) returns (rest: seq<Action>)
      requires Valid() && changing
      modifies this
      ensures Valid() && changing && !pending && previousAttributes == old(previousAttributes) && old(log) <= log
      ensures |rest| <= |script|
      ensures script == [] ==> attributes == old(attributes) && changed == old(changed)
      ensures TameScript(script) ==>
        TameScript(rest) && (old(IdRight()) ==> IdRight()) && (old(LogRight()) ==> LogRight())
      ensures script == [] ==> log == old(log) + if old(pending) then [Change] else []
      ensures old(pending) && script != [] ==> Effective(script[0], old(attributes), log, |old(log)| + 1)
      decreases |script|, 2
    {
      rest := script;
      ghost var first := true;
      while pending
        invariant Valid() && changing && previousAttributes == old(previousAttributes) && old(log) <= log
        invariant |rest| <= |script|
        invariant script == [] ==> attributes == old(attributes) && changed == old(changed)
        invariant TameScript(script) ==>
          TameScript(rest) && (old(IdRight()) ==> IdRight()) && (old(LogRight()) ==> LogRight())
        invariant script == [] ==> log == old(log) + if old(pending) && !pending then [Change] else []
        invariant first ==>
          rest == script && log == old(log) && attributes == old(attributes) && pending == old(pending)
        invariant !first && script != [] ==> Effective(script[0], old(attributes), log, |old(log)| + 1)
        decreases |rest|, pending
      {
        ghost var earlier := log;
        pending := false;
        AnsweredNow(log);
        log := log + [Change];
        rest := RunForeign(rest);
        if !first && script != [] { StillEffective(script[0], old(attributes), earlier, log, |old(log)| + 1); }
        first := false;
      }
    }

    /** The listeners of one event. */
    method RunForeign(script: seq<Action>) returns (rest: seq<Action>)
      requires Valid() && changing
      modifies this
      ensures Valid() && changing && previousAttributes == old(previousAttributes) && old(log) <= log
      ensures |rest| <= |script|
      ensures |rest| < |script| || (rest == script == [] && attributes == old(attributes) && changed == old(changed))
      ensures |rest| < |script| || (pending == old(pending) && log == old(log))
      ensures script != [] ==> Effective(script[0], old(attributes), log, |old(log)|)
      ensures old(pending) ==> pending
      ensures TameScript(script) ==>
        TameScript(rest) && (old(IdRight()) ==> IdRight()) && (old(LogRight()) ==> LogRight())
      decreases |script|, 0
    {
      rest := script;
      while rest != []
        invariant Valid() && changing && previousAttributes == old(previousAttributes) && old(log) <= log
        invariant |rest| <= |script|
        invariant |rest| < |script| || (rest == script && attributes == old(attributes) && changed == old(changed))
        invariant |rest| < |script| || (pending == old(pending) && log == old(log))
        invariant |rest| < |script| ==> Effective(script[0], old(attributes), log, |old(log)|)
        invariant old(pending) ==> pending
        invariant TameScript(script) ==>
          TameScript(rest) && (old(IdRight()) ==> IdRight()) && (old(LogRight()) ==> LogRight())
        decreases |rest|
      {
        var action := rest[0];
        assert TameScript(rest) ==> TameAction(action) && TameScript(rest[1..]);
        rest := rest[1..];
        if action.Return? { return; }
        ghost var told := log;
        rest := Perform(action, rest);
        if Effective(script[0], old(attributes), told, |old(log)|) {
          StillEffective(script[0], old(attributes), told, log, |old(log)|);
        }
      }
    }

    /** One call by a listener. */
    method Perform(action: Action, script: seq<Action>) returns (rest: seq<Action>)
      requires Valid()
      modifies this
      ensures Valid() && changing == old(changing) && old(log) <= log && |rest| <= |script|
      ensures changing ==> previousAttributes == old(previousAttributes) && (old(pending) ==> pending)
      ensures TameScript(script) ==> TameScript(rest)
      ensures TameScript(script) && TameAction(action) ==>
        (old(IdRight()) ==> IdRight()) && (old(LogRight()) ==> LogRight())
      ensures Effective(action, old(attributes), log, |old(log)|)
      decreases |script|, 6
    {
      rest := script;
      var ok;
      match action
      case SetAll(attrs, unset, silent, valid) =>
        if DistinctKeys(attrs) { ok, rest := Set(attrs, unset, silent, valid, script); }
      case Unset(key, silent, valid) => ok, rest := UnsetKey(key, silent, valid, script);
      case Clear(order, silent, valid) =>
        if Enumerates(order, attributes) { ok, rest := ClearAll(order, silent, valid, script); }
      case Return =>
    }

    /** `unset` */
    method UnsetKey(key: string, silent: bool, valid: bool, script: seq<Action>) returns (ok: bool, rest: seq<Action>)
      requires Valid()
      modifies this
      ensures Valid() && changing == old(changing) && old(log) <= log && |rest| <= |script| && ok == valid
      ensures changing ==> previousAttributes == old(previousAttributes) && (old(pending) ==> pending)
      ensures valid && !old(changing) ==> previousAttributes == old(attributes)
      ensures TameScript(script) && valid && (old(changing) ==> old(LogRight())) ==> LogRight()
      ensures TameScript(script) ==>
        TameScript(rest) && (old(IdRight()) ==> IdRight()) && (!valid && old(LogRight()) ==> LogRight())
      ensures !changing ==> Answered(log)
      ensures valid && silent ==> attributes == old(attributes) - {key}
      ensures valid && !silent && Get(old(attributes), key) != Undefined ==> AnnouncedAfter(key, log, |old(log)|)
      decreases |script|, 5
    {
      assert PutAll(attributes, [], true) == attributes;
      var attrs := [(key, Undefined)];
      ok, rest := Set(attrs, true, silent, valid, script);
      assert attrs[0] == (key, Undefined);
    }

    /** `clear` */
    method ClearAll(order: seq<string>, silent: bool, valid: bool, script: seq<Action>)
      returns (ok: bool, rest: seq<Action>)
      requires Valid() && Enumerates(order, attributes)
      modifies this
      ensures Valid() && changing == old(changing) && old(log) <= log && |rest| <= |script| && ok == valid
      ensures changing ==> previousAttributes == old(previousAttributes) && (old(pending) ==> pending)
      ensures valid && !old(changing) ==> previousAttributes == old(attributes)
      ensures TameScript(script) && valid && (old(changing) ==> old(LogRight())) ==> LogRight()
      ensures TameScript(script) ==>
        TameScript(rest) && (old(IdRight()) ==> IdRight()) && (!valid && old(LogRight()) ==> LogRight())
      ensures !changing ==> Answered(log)
      ensures valid && silent ==> attributes == map[]
      ensures valid && !silent ==> NamesTold(old(attributes), log, |old(log)|)
      decreases |script|, 5
    {
      var attrs := seq(|order|, i requires 0 <= i < |order| => (order[i], Undefined));
      ClearedAll(attributes, attrs, order);
      ok, rest := Set(attrs, true, silent, valid, script);
      if valid && !silent { ClearedTold(old(attributes), attrs, order, log, |old(log)|); }
    }
  }

  lemma ClearedTold(before: Attributes, attrs: seq<(string, Value)>, order: seq<string>, log: seq<Happening>, from: nat)
    requires Enumerates(order, before) && |attrs| == |order| && AllTold(before, attrs, log, from)
    requires forall i | 0 <= i < |order| :: attrs[i] == (order[i], Undefined)
    ensures NamesTold(before, log, from)
  {
    forall k | k in before && Get(before, k) != Undefined ensures AnnouncedAfter(k, log, from) {
      var i :| 0 <= i < |order| && order[i] == k;
      assert attrs[i].1 != Get(before, attrs[i].0);
    }
  }

  /** The "change:" events of a call, when no listener makes changes. */
  ghost function Announcements(changes: seq<string>, current: Attributes): seq<Happening> {
    if changes == [] then []
    else
      var last := |changes| - 1;
      Announcements(changes[..last], current) + [ChangeOf(changes[last], Get(current, changes[last]))]
  }

  lemma {:induction false} AnnouncementsAt(changes: seq<string>, current: Attributes)
    ensures |Announcements(changes, current)| == |changes|
    ensures forall i | 0 <= i < |changes| ::
      Announcements(changes, current)[i] == ChangeOf(changes[i], Get(current, changes[i]))
  {
    if changes != [] {
      var last := |changes| - 1;
      AnnouncementsAt(changes[..last], current);
      forall i | 0 <= i < last
        ensures Announcements(changes, current)[i] == ChangeOf(changes[i], Get(current, changes[i]))
      {
        assert changes[..last][i] == changes[i];
      }
    }
  }

  /** What a call puts in the log when no listener makes changes. */
  ghost function EventsOf(changes: seq<string>, current: Attributes, nested: bool): seq<Happening> {
    if changes == [] then []
    else [Altered(changes)] + Announcements(changes, current) + if nested then [] else [Change]
  }

  /** The call has been made: what it altered has been announced. */
  ghost predicate Effective(action: Action, before: Attributes, log: seq<Happening>, from: nat) {
    match action
    case SetAll(attrs, _, silent, valid) =>
      DistinctKeys(attrs) && valid && !silent ==> AllTold(before, attrs, log, from)
    case Unset(key, silent, valid) =>
      valid && !silent && Get(before, key) != Undefined ==> AnnouncedAfter(key, log, from)
    case Clear(order, silent, valid) =>
      Enumerates(order, before) && valid && !silent ==> NamesTold(before, log, from)
    case Return => true
  }

  ghost predicate NamesTold(before: Attributes, log: seq<Happening>, from: nat) {
    forall k <- before | Get(before, k) != Undefined :: AnnouncedAfter(k, log, from)
  }

  lemma StillEffective(action: Action, before: Attributes, log: seq<Happening>, more: seq<Happening>, from: nat)
    requires Effective(action, before, log, from) && log <= more
    ensures Effective(action, before, more, from)
  {
    forall k | AnnouncedAfter(k, log, from) ensures AnnouncedAfter(k, more, from) {
      var j :| from <= j < |log| && log[j].ChangeOf? && log[j].key == k;
      assert more[j] == log[j];
    }
  }

  /** Each of the changes has been announced, from some place in the log on. */
  ghost predicate AllAnnounced(changes: seq<string>, log: seq<Happening>, from: nat) {
    forall i | 0 <= i < |changes| :: AnnouncedAfter(changes[i], log, from)
  }

  ghost predicate AnnouncedAfter(key: string, log: seq<Happening>, from: nat) {
    exists j | from <= j < |log| :: log[j].ChangeOf? && log[j].key == key
  }

  lemma StillAnnounced(changes: seq<string>, log: seq<Happening>, more: seq<Happening>, from: nat)
    requires AllAnnounced(changes, log, from) && log <= more
    ensures AllAnnounced(changes, more, from)
  {
    forall i | 0 <= i < |changes| ensures AnnouncedAfter(changes[i], more, from) {
      assert AnnouncedAfter(changes[i], log, from);
      var j :| from <= j < |log| && log[j].ChangeOf? && log[j].key == changes[i];
      assert more[j] == log[j];
    }
  }

  lemma AnnouncedEarlier(changes: seq<string>, log: seq<Happening>, from: nat, later: nat)
    requires AllAnnounced(changes, log, later) && from <= later
    ensures AllAnnounced(changes, log, from)
  {
    forall i | 0 <= i < |changes| ensures AnnouncedAfter(changes[i], log, from) {
      assert AnnouncedAfter(changes[i], log, later);
    }
  }

  lemma OneMore(changes: seq<string>, i: nat, log: seq<Happening>, more: seq<Happening>, from: nat, current: Attributes)
    requires i < |changes| && from <= |log| && AllAnnounced(changes[..i], log, from)
    requires more == log + [ChangeOf(changes[i], Get(current, changes[i]))]
    ensures AllAnnounced(changes[..i + 1], more, from)
    ensures Announcements(changes[..i + 1], current) == Announcements(changes[..i], current) + [more[|log|]]
  {
    StillAnnounced(changes[..i], log, more, from);
    assert changes[..i + 1][..i] == changes[..i];
    assert more[|log|].key == changes[i];
    var told := changes[..i + 1];
    forall k | 0 <= k < |told| ensures AnnouncedAfter(told[k], more, from) {
      if k < i { assert AnnouncedAfter(changes[..i][k], more, from); }
    }
  }

  /** The order in which the attributes of an object are enumerated. */
  predicate Enumerates(order: seq<string>, m: Attributes) {
    && (forall i, j | 0 <= i < j < |order| :: order[i] != order[j])
    && (forall k <- order :: k in m) && forall k <- m :: k in order
  }

  lemma AnsweredNow(log: seq<Happening>)
    ensures Answered(log + [Change])
  {
    var more := log + [Change];
    assert more[|log|].Change?;
    forall i | 0 <= i < |more| && more[i].Altered? ensures ChangeFrom(more, i) {}
  }

  lemma {:induction false} PutAllRemoves(current: Attributes, attrs: seq<(string, Value)>)
    ensures forall k :: k in PutAll(current, attrs, true) <==> k in current && forall i | 0 <= i < |attrs| ::
      attrs[i].0 != k
    ensures forall k <- PutAll(current, attrs, true) :: PutAll(current, attrs, true)[k] == current[k]
  {
    if attrs != [] {
      var front := attrs[..|attrs| - 1];
      PutAllRemoves(current, front);
      assert attrs == front + [attrs[|attrs| - 1]];
    }
  }

  lemma ClearedAll(current: Attributes, attrs: seq<(string, Value)>, order: seq<string>)
    requires Enumerates(order, current) && |attrs| == |order|
    requires forall i | 0 <= i < |order| :: attrs[i] == (order[i], Undefined)
    ensures PutAll(current, attrs, true) == map[] && DistinctKeys(attrs)
  {
    PutAllRemoves(current, attrs);
    forall k | k in current ensures k !in PutAll(current, attrs, true) {
      var i :| 0 <= i < |order| && order[i] == k;
      assert attrs[i].0 == k;
    }
  }
}
