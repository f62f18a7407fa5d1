/**
 jQuery.when: one Deferred that follows many. The subordinates settle, and report progress, whenever
 they like, also while they are being wired; each of them settles at most once.
 */
module WhenAll {
  import opened CallbackLists

  datatype Argument = Given(value: Value) | Promise(id: nat)

  datatype Outcome = Waiting | Succeeded(args: Data) | Failed(args: Data)

  datatype Master = Open | ResolvedWith(values: seq<Argument>) | RejectedWith(args: Data)

  datatype Event = Done(i: nat, args: Data) | Fail(i: nat, args: Data) | Progress(i: nat, args: Data)

  /** Several arguments are passed on as an array. */
  function Collected(args: Data): Value {
    if |args| > 1 then Array(args) else if |args| == 1 then args[0] else Undefined
  }

  /** Argument `j` has been reached, and its value is there. */
  ghost predicate Settled(arguments: seq<Argument>, outcomes: seq<Outcome>, wired: nat, j: nat) {
    j < wired && j < |arguments| && j < |outcomes| && (arguments[j].Given? || outcomes[j].Succeeded?)
  }

  ghost function OpenSlots(arguments: seq<Argument>, outcomes: seq<Outcome>, wired: nat): set<nat> {
    set j: nat | j < |arguments| && !Settled(arguments, outcomes, wired, j)
  }

  /** What a slot holds: the settled value of its promise as soon as there is one. */
  ghost function FinalValue(argument: Argument, outcome: Outcome): Argument {
    if argument.Promise? && outcome.Succeeded? then Given(Collected(outcome.args)) else argument
  }

  lemma SlotFilled(arguments: seq<Argument>, outcomes: seq<Outcome>, wired: nat, i: nat, args: Data)
    requires |outcomes| == |arguments| && i < wired && i < |arguments| && arguments[i].Promise? && outcomes[i].Waiting?
    ensures i in OpenSlots(arguments, outcomes, wired)
    ensures OpenSlots(arguments, outcomes[i := Succeeded(args)], wired) == OpenSlots(arguments, outcomes, wired) - {i}
  {
    var after := outcomes[i := Succeeded(args)];
    forall j: nat | j < |arguments| && j != i
      ensures Settled(arguments, after, wired, j) <==> Settled(arguments, outcomes, wired, j)
    {}
  }

  ghost predicate FirstFailure(outcomes: seq<Outcome>, failures: seq<nat>, args: Data) {
    failures != [] && failures[0] in failures && failures[0] < |outcomes| && outcomes[failures[0]] == Failed(args)
  }

  ghost predicate Settles(event: Event, i: nat) {
    !event.Progress? && event.i == i
  }

  /** What becomes of promise `i` when these things happen to it: its first Done or Fail counts. */
  ghost predicate Decides(events: seq<Event>, i: nat, outcome: Outcome) {
    match outcome
    case Waiting => forall k | 0 <= k < |events| :: !Settles(events[k], i)
    case Succeeded(args) => exists k | 0 <= k < |events| :: FirstIs(events, i, k) && events[k] == Done(i, args)
    case Failed(args) => exists k | 0 <= k < |events| :: FirstIs(events, i, k) && events[k] == Fail(i, args)
  }

  ghost predicate FirstIs(events: seq<Event>, i: nat, k: nat)
    requires k < |events|
  {
    Settles(events[k], i) && forall l | 0 <= l < k :: !Settles(events[l], i)
  }

  /** More happens, which counts only if nothing has yet. */
  lemma DecidesMore(events: seq<Event>, more: seq<Event>, i: nat, outcome: Outcome, next: Outcome)
    requires Decides(events, i, outcome)
    requires if outcome.Waiting? then Decides(more, i, next) else next == outcome
    ensures Decides(events + more, i, next)
  {
    var all := events + more;
    assert forall k | 0 <= k < |events| :: all[k] == events[k];
    assert forall k | 0 <= k < |more| :: all[|events| + k] == more[k];
    if !outcome.Waiting? {
      var k :| 0 <= k < |events| && FirstIs(events, i, k) && (events[k].Done? <==> next.Succeeded?)
        && (events[k] == Done(i, next.args) || events[k] == Fail(i, next.args));
      assert FirstIs(all, i, k);
    } else if !next.Waiting? {
      var k :| 0 <= k < |more| && FirstIs(more, i, k) && (more[k].Done? <==> next.Succeeded?)
        && (more[k] == Done(i, next.args) || more[k] == Fail(i, next.args));
      assert FirstIs(all, i, |events| + k);
    }
  }

  ghost function Flat(events: seq<seq<Event>>): seq<Event> {
    if events == [] then [] else Flat(events[..|events| - 1]) + events[|events| - 1]
  }

  /** The outcome of each promise that has been wired is decided by what happened since; `n` rounds have
      gone by. */
  ghost predicate DecidedBy(events: seq<seq<Event>>, arguments: seq<Argument>, outcomes: seq<Outcome>, n: nat)
    requires n <= |events| && |outcomes| == |arguments|
  {
    forall j | 0 <= j < |arguments| ::
      if j < n && arguments[j].Promise? then Decides(Flat(events[j..n]), j, outcomes[j]) else outcomes[j].Waiting?
  }

  lemma DecidedNext(events: seq<seq<Event>>, arguments: seq<Argument>, before: seq<Outcome>, after: seq<Outcome>,
                    n: nat, wired: nat)
    requires n < |events| && |before| == |after| == |arguments| && DecidedBy(events, arguments, before, n)
    requires wired == if n < |arguments| then n + 1 else |arguments|
    requires forall j | 0 <= j < |arguments| ::
      if before[j].Waiting? && j < wired && arguments[j].Promise? then Decides(events[n], j, after[j])
      else after[j] == before[j]
    ensures DecidedBy(events, arguments, after, n + 1)
  {
    forall j | 0 <= j < |arguments| && j < n + 1 && arguments[j].Promise?
      ensures Decides(Flat(events[j..n + 1]), j, after[j])
    {
      assert events[j..n + 1][..n - j] == events[j..n] && events[j..n + 1][n - j] == events[n];
      if j == n { assert Flat(events[j..n]) == []; }
      DecidesMore(Flat(events[j..n]), events[n], j, before[j], after[j]);
    }
  }

  /** The events that reach a promise that has been wired. */
  ghost predicate IsReport(event: Event, arguments: seq<Argument>, wired: nat) {
    event.Progress? && event.i < wired && event.i < |arguments| && arguments[event.i].Promise?
  }

  ghost function Reports(events: seq<Event>, arguments: seq<Argument>, wired: nat): nat {
    if events == [] then 0
    else
      var last := |events| - 1;
      Reports(events[..last], arguments, wired) + if IsReport(events[last], arguments, wired) then 1 else 0
  }

  /** Each report has led to a notification that has it in its slot. */
  ghost predicate Reported(notified: seq<seq<Value>>, from: nat, events: seq<Event>, arguments: seq<Argument>,
                           wired: nat)
  {
    forall k | 0 <= k < |events| && IsReport(events[k], arguments, wired) ::
      exists n | from <= n < |notified| :: Holds(notified[n], events[k])
  }

  /** The slot has the one argument of the report, or an array of several. */
  ghost predicate Holds(values: seq<Value>, event: Event) {
    event.i < |values| && values[event.i] ==
      if |event.args| == 1 then event.args[0] else if |event.args| > 1 then Array(event.args) else Undefined
  }

  lemma ReportedMore(notified: seq<seq<Value>>, more: seq<seq<Value>>, from: nat, events: seq<Event>, k: nat,
                     arguments: seq<Argument>, wired: nat)
    requires k < |events| && Reported(notified, from, events[..k], arguments, wired)
    requires notified <= more && from <= |notified|
    requires IsReport(events[k], arguments, wired) ==> |more| > |notified| && Holds(more[|notified|], events[k])
    ensures Reported(more, from, events[..k + 1], arguments, wired)
  {
    var upTo := events[..k + 1];
    forall j | 0 <= j < |upTo| && IsReport(upTo[j], arguments, wired)
      ensures exists n | from <= n < |more| :: Holds(more[n], upTo[j])
    {
      if j < k {
        assert events[..k][j] == upTo[j];
        var n :| from <= n < |notified| && Holds(notified[n], upTo[j]);
        assert more[n] == notified[n];
      }
    }
  }

  class When {
    const arguments: seq<Argument>
    /** Whether the one argument is a promise, which then stands for itself. */
    const passesThrough: bool
    var remaining: int
    var resolveValues: seq<Argument>
    var progressValues: seq<Value>
    var master: Master
    var notified: seq<seq<Value>>
    var wired: nat
    var outcomes: seq<Outcome>
    ghost var failures: seq<nat>
    ghost var finished: bool

    ghost function Unresolved(): set<nat>
      reads this
    {
      OpenSlots(arguments, outcomes, wired)
    }

    ghost predicate Valid()
      reads this
    {
      && |resolveValues| == |outcomes| == |progressValues| == |arguments| && wired <= |arguments| && |arguments| > 1
      && remaining == |Unresolved()|
      && (forall j | 0 <= j < |arguments| :: outcomes[j].Waiting? || (j < wired && arguments[j].Promise?))
      && (forall j | 0 <= j < |arguments| :: resolveValues[j] == FinalValue(arguments[j], outcomes[j]))
      && (forall j | 0 <= j < |arguments| :: outcomes[j].Failed? <==> j in failures)
      && (forall j <- failures :: j < |arguments|)
      && match master
         case Open => failures == [] && (finished ==> Unresolved() != {})
         case ResolvedWith(values) => Unresolved() == {} && values == resolveValues
         case RejectedWith(args) => FirstFailure(outcomes, failures, args)
    }

    constructor (arguments: seq<Argument>)
      ensures this.arguments == arguments && wired == 0 && !finished && outcomes == seq(|arguments|, _ => Waiting)
      ensures |arguments| > 1 ==> Valid() && master == Open
      ensures passesThrough <==> |arguments| == 1 && arguments[0].Promise?
      ensures passesThrough ==> remaining == 1 && master == Open
      ensures |arguments| <= 1 && !passesThrough ==> remaining == 0 && resolveValues == arguments && master == Open
    {
      this.arguments := arguments;
      passesThrough := |arguments| == 1 && arguments[0].Promise?;
      remaining := if |arguments| != 1 || arguments[0].Promise? then |arguments| else 0;
      resolveValues := arguments;
      progressValues := seq(|arguments|, _ => Undefined);
      master, notified, wired := Open, [], 0;
      outcomes, failures, finished := seq(|arguments|, _ => Waiting), [], false;
      new;
      assert Unresolved() == Range(|arguments|);
      CountBelow(|arguments|);
    }

    /** `deferred.resolveWith`, which does nothing to a Deferred that is settled. */
    method Resolve()
      modifies this`master
      ensures master == if old(master).Open? then ResolvedWith(resolveValues) else old(master)
    {
      if master.Open? { master := ResolvedWith(resolveValues); }
    }

    /** One subordinate is reached in the loop. */
    method Wire()
      requires Valid() && wired < |arguments| && !finished
      modifies this
      ensures Valid() && wired == old(wired) + 1 && outcomes == old(outcomes) && master == old(master) && !finished
      ensures notified == old(notified)
    {
      ghost var before := Unresolved();
      var i := wired;
      wired := wired + 1;
      if arguments[i].Given? {
        assert Unresolved() == before - {i};
        remaining := remaining - 1;
      } else {
        assert Unresolved() == before;
      }
    }

    /** A subordinate has resolved: `updateFunc` with the resolve values. */
    method OnDone(i: nat, args: Data)
      requires Valid() && i < wired && arguments[i].Promise? && outcomes[i].Waiting?
      modifies this
      ensures Valid() && outcomes == old(outcomes)[i := Succeeded(args)] && wired == old(wired)
      ensures finished == old(finished) && notified == old(notified)
      ensures failures == old(failures) && (old(master) != Open ==> master == old(master))
    {
      ghost var before := Unresolved();
      outcomes := outcomes[i := Succeeded(args)];
      resolveValues := resolveValues[i := Given(Collected(args))];
      SlotFilled(arguments, old(outcomes), wired, i, args);
      assert Unresolved() == before - {i};
      remaining := remaining - 1;
      if remaining == 0 {
        Resolve();
      }
    }

    /** A subordinate has been rejected, and the master with it. */
    method OnFail(i: nat, args: Data)
      requires Valid() && i < wired && arguments[i].Promise? && outcomes[i].Waiting?
      modifies this
      ensures Valid() && outcomes == old(outcomes)[i := Failed(args)] && wired == old(wired)
      ensures finished == old(finished) && notified == old(notified)
      ensures master == if old(master).Open? then RejectedWith(args) else old(master)
    {
      ghost var before := Unresolved();
      assert i in before;
      outcomes, failures := outcomes[i := Failed(args)], failures + [i];
      assert Unresolved() == before;
      if master.Open? { master := RejectedWith(args); }
    }

    /** Progress is passed on while the master is open. */
    method OnProgress(i: nat, args: Data)
      requires Valid() && i < wired && arguments[i].Promise?
      modifies this`progressValues, this`notified
      ensures Valid() && progressValues == old(progressValues)[i := Collected(args)]
      ensures notified == if master.Open? then old(notified) + [progressValues] else old(notified)
    {
      progressValues := progressValues[i := Collected(args)];
      if master.Open? { notified := notified + [progressValues]; }
    }

    /** Any number of events. Those of a subordinate that is not wired yet do not count, and of the
        others the first that settles it; reports of progress are passed on while the master is open. */
    method Happen(events: seq<Event>)
      requires Valid()
      modifies this
      ensures Valid() && wired == old(wired) && finished == old(finished)
      ensures forall j | 0 <= j < |arguments| ::
        if old(outcomes)[j].Waiting? && j < wired && arguments[j].Promise? then Decides(events, j, outcomes[j])
        else outcomes[j] == old(outcomes)[j]
      ensures old(master) != Open ==> master == old(master) && notified == old(notified)
      ensures old(notified) <= notified
      ensures master.Open? ==>
        && Reported(notified, |old(notified)|, events, arguments, wired)
        && |notified| == |old(notified)| + Reports(events, arguments, wired)
    {
      for k := 0 to |events|
        invariant Valid() && wired == old(wired) && finished == old(finished)
        invariant forall j | 0 <= j < |arguments| ::
          if old(outcomes)[j].Waiting? && j < wired && arguments[j].Promise? then Decides(events[..k], j, outcomes[j])
          else outcomes[j] == old(outcomes)[j]
        invariant old(master) != Open ==> master == old(master) && notified == old(notified)
        invariant old(notified) <= notified
        invariant master.Open? ==>
          && Reported(notified, |old(notified)|, events[..k], arguments, wired)
          && |notified| == |old(notified)| + Reports(events[..k], arguments, wired)
      {
        ghost var before, told := outcomes, notified;
        assert events[..k + 1] == events[..k] + [events[k]] && events[..k + 1][..k] == events[..k];
        HappenOne(events[k]);
        forall j | 0 <= j < |arguments| && old(outcomes)[j].Waiting? && j < wired && arguments[j].Promise?
          ensures Decides(events[..k + 1], j, outcomes[j])
        {
          DecidesMore(events[..k], [events[k]], j, before[j], outcomes[j]);
        }
        if master.Open? { ReportedMore(told, notified, |old(notified)|, events, k, arguments, wired); }
      }
      assert events[..|events|] == events;
    }

    method HappenOne(event: Event)
      requires Valid()
      modifies this
      ensures Valid() && wired == old(wired) && finished == old(finished)
      ensures forall j | 0 <= j < |arguments| ::
        if old(outcomes)[j].Waiting? && j < wired && arguments[j].Promise? then Decides([event], j, outcomes[j])
        else outcomes[j] == old(outcomes)[j]
      ensures old(master) != Open ==> master == old(master) && notified == old(notified)
      ensures master.Open? && IsReport(event, arguments, wired) ==>
        |notified| == |old(notified)| + 1 && old(notified) <= notified && Holds(notified[|old(notified)|], event)
      ensures !IsReport(event, arguments, wired) ==> notified == old(notified)
      ensures old(notified) <= notified
    {
      var i := event.i;
      if i < wired && arguments[i].Promise? {
        match event
        case Done(_, args) =>
          if outcomes[i].Waiting? { OnDone(i, args); }
        case Fail(_, args) =>
          if outcomes[i].Waiting? { OnFail(i, args); }
        case Progress(_, args) => OnProgress(i, args);
      }
      assert [event][0] == event;
      if outcomes != old(outcomes) { assert FirstIs([event], i, 0); }
    }

    method WireAll(events: seq<seq<Event>>)
      requires Valid() && |events| > |arguments| && wired == 0 && !finished
      requires forall j | 0 <= j < |arguments| :: outcomes[j] == Waiting
      modifies this
      ensures Valid() && !finished && wired == |arguments| && DecidedBy(events, arguments, outcomes, wired)
    {
      while wired < |arguments|
        invariant Valid() && !finished && DecidedBy(events, arguments, outcomes, wired)
      {
        ghost var before, n := outcomes, wired;
        Wire();
        Happen(events[wired - 1]);
        DecidedNext(events, arguments, before, outcomes, n, wired);
      }
    }

    /** The whole call: while each subordinate is wired, and after that, things happen. */
    method Run(events: seq<seq<Event>>)
      requires |arguments| > 1 ==> Valid() && |events| > |arguments|
      requires wired == 0 && !finished && master == Open && |outcomes| == |arguments|
      requires forall j | 0 <= j < |arguments| :: outcomes[j] == Waiting
      requires |arguments| <= 1 && !passesThrough ==> remaining == 0 && resolveValues == arguments
      requires passesThrough ==> |arguments| == 1 && remaining == 1
      requires |arguments| == 1 && arguments[0].Promise? ==> passesThrough
      modifies this
      ensures |arguments| > 1 ==> Valid() && finished && wired == |arguments|
      ensures |arguments| > 1 ==>
        |outcomes| == |arguments| && DecidedBy(events, arguments, outcomes, |arguments| + 1)
      ensures |arguments| <= 1 && !passesThrough ==> master == ResolvedWith(arguments)
      ensures passesThrough ==> master == Open
    {
      if |arguments| > 1 {
        WireAll(events);
      }
      if remaining == 0 {
        Resolve();
      }
      finished := true;
      if |arguments| > 1 {
        ghost var before := outcomes;
        Happen(events[|arguments|]);
        DecidedNext(events, arguments, before, outcomes, |arguments|, wired);
      }
    }

    /** The master resolves exactly when every promise has resolved, with each value in its slot, and
        is rejected exactly when one has failed, with the arguments of the first failure. */
    lemma MasterFollows()
      requires Valid() && finished && wired == |arguments|
      ensures master.ResolvedWith? <==> forall j | 0 <= j < |arguments| :: arguments[j].Promise? ==>
        outcomes[j].Succeeded?
      ensures master.ResolvedWith? ==> |master.values| == |arguments| && forall j | 0 <= j < |arguments| ::
        master.values[j] ==
          if arguments[j].Given? then arguments[j]
          else if |outcomes[j].args| == 1 then Given(outcomes[j].args[0])
          else if |outcomes[j].args| > 1 then Given(Array(outcomes[j].args)) else Given(Undefined)
      ensures master.RejectedWith? <==> exists j | 0 <= j < |arguments| :: outcomes[j].Failed?
      ensures master.RejectedWith? ==>
        failures != [] && failures[0] < |arguments| && outcomes[failures[0]] == Failed(master.args)
      ensures remaining == 0 <==> master.ResolvedWith?
    {
      if master.ResolvedWith? {
        forall j | 0 <= j < |arguments| && arguments[j].Promise? ensures outcomes[j].Succeeded? {
          assert j !in Unresolved();
        }
      } else if master.RejectedWith? {
        assert outcomes[failures[0]].Failed?;
        assert failures[0] in Unresolved();
      } else {
        var j :| j in Unresolved();
        assert arguments[j].Promise? && !outcomes[j].Succeeded?;
      }
    }
  }

  ghost predicate Below(j: nat, n: nat) {
    j < n
  }

  ghost function Range(n: nat): set<nat> {
    set j: nat | j < n && Below(j, n)
  }

  lemma {:induction false} CountBelow(n: nat)
    ensures |Range(n)| == n
  {
    if n > 0 {
      CountBelow(n - 1);
      assert Range(n) == Range(n - 1) + {n - 1};
    }
  }
}
