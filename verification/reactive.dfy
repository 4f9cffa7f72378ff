/** The minimal reactive core: signals with subscriber sets, effects that
    re-discover their dependencies on every run, `untrack`, and `batch` with a
    pending set flushed when the outermost batch exits. Computations are
    abstract ids; an effect's body is the set of signals it reads tracked and
    the set it reads inside `untrack`. */
module Reactive {
  import opened Wrappers

  /** A signal, identified by the order of creation. */
  type Sig = nat
  /** A computation (effect), identified by the order of creation. */
  type Comp = nat

  /** What an effect's function does when it runs: the signals it reads while
      tracking, and the signals it reads inside `untrack`. */
  datatype Body = Body(tracked: set<Sig>, untracked: set<Sig>)

  /** One statement of a function passed to `batch`: a signal write, a nested
      `batch`, or a throw. */
  datatype Step<V> = Assign(signal: Sig, value: V) | Nested(steps: seq<Step<V>>) | Raise

  /** A signal write that happened. */
  datatype Assignment<V> = Assignment(signal: Sig, value: V)

  /** The writes a batch function performs, in order, and whether an
      exception escapes it. Execution stops at the first throw, which
      propagates through the enclosing nested batches. */
  function Trace<V>(steps: seq<Step<V>>): (r: (seq<Assignment<V>>, bool))
    ensures steps == [] ==> r == ([], false)
    ensures (forall i :: 0 <= i < |steps| ==> steps[i].Assign?) ==>
              && !r.1 && |r.0| == |steps|
              && forall i :: 0 <= i < |steps| ==> r.0[i] == Assignment(steps[i].signal, steps[i].value)
    decreases steps
  {
    if steps == [] then ([], false)
    else match steps[0]
      case Assign(s, v) =>
        var rest := Trace(steps[1..]);
        ([Assignment(s, v)] + rest.0, rest.1)
      case Nested(inner) =>
        var first := Trace(inner);
        if first.1 then (first.0, true)
        else
          var rest := Trace(steps[1..]);
          (first.0 + rest.0, rest.1)
      case Raise => ([], true)
  }

  /** Every signal a batch function could write, thrown or not. */
  function Mentioned<V>(steps: seq<Step<V>>): set<Sig>
    decreases steps
  {
    if steps == [] then {}
    else match steps[0]
      case Assign(s, _) => {s} + Mentioned(steps[1..])
      case Nested(inner) => Mentioned(inner) + Mentioned(steps[1..])
      case Raise => Mentioned(steps[1..])
  }

  /** The writes that happen are among the mentioned ones. */
  lemma {:induction false} TraceMentioned<V>(steps: seq<Step<V>>)
    ensures forall i :: 0 <= i < |Trace(steps).0| ==> Trace(steps).0[i].signal in Mentioned(steps)
    decreases steps
  {
    if steps != [] {
      TraceMentioned(steps[1..]);
      match steps[0]
      case Assign(s, v) =>
      case Nested(inner) => TraceMentioned(inner);
      case Raise =>
    }
  }

  /** The signal values after a sequence of writes. */
  function Apply<V>(values: map<Sig, V>, writes: seq<Assignment<V>>): (r: map<Sig, V>)
    ensures (forall i :: 0 <= i < |writes| ==> writes[i].signal in values) ==> r.Keys == values.Keys
    decreases writes
  {
    if writes == [] then values
    else Apply(values[writes[0].signal := writes[0].value], writes[1..])
  }

  /** The computations subscribed to any of the written signals. */
  function Scheduled<V>(writes: seq<Assignment<V>>, subscribers: map<Sig, set<Comp>>): set<Comp>
  {
    if writes == [] then {}
    else
      (if writes[0].signal in subscribers then subscribers[writes[0].signal] else {})
      + Scheduled(writes[1..], subscribers)
  }

  /** Subscriber sets after a computation leaves all of them. */
  function UnsubscribedFrom(subscribers: map<Sig, set<Comp>>, c: Comp): (r: map<Sig, set<Comp>>)
    ensures r.Keys == subscribers.Keys
  {
    map s | s in subscribers :: subscribers[s] - {c}
  }

  /** Subscriber sets after a computation subscribes to some signals. */
  function SubscribedTo(subscribers: map<Sig, set<Comp>>, c: Comp, signals: set<Sig>): (r: map<Sig, set<Comp>>)
    ensures r.Keys == subscribers.Keys
  {
    map s | s in subscribers :: if s in signals then subscribers[s] + {c} else subscribers[s]
  }

  /** A computation is in a signal's subscriber set exactly when the signal
      is among the computation's sources. */
  ghost predicate LinkedMaps(subscribers: map<Sig, set<Comp>>, sources: map<Comp, set<Sig>>)
  {
    && (forall s, c :: s in subscribers && c in subscribers[s] ==> c in sources && s in sources[c])
    && (forall c, s :: c in sources && s in sources[c] ==> s in subscribers && c in subscribers[s])
  }

  /** A computation without sources that subscribes to some signals, on
      both sides, keeps the two sides in step. */
  lemma SubscribeKeepsLinked(subscribers: map<Sig, set<Comp>>, sources: map<Comp, set<Sig>>, c: Comp, signals: set<Sig>)
    requires LinkedMaps(subscribers, sources)
    requires c in sources && sources[c] == {} && signals <= subscribers.Keys
    ensures LinkedMaps(SubscribedTo(subscribers, c, signals), sources[c := signals])
  {
  }

  /** A computation that had no sources can be added with none. */
  lemma NewComputationUnlinked(subscribers: map<Sig, set<Comp>>, sources: map<Comp, set<Sig>>, c: Comp)
    requires LinkedMaps(subscribers, sources) && c !in sources
    ensures LinkedMaps(subscribers, sources[c := {}])
    ensures UnsubscribedFrom(subscribers, c) == subscribers
  {
    forall s | s in subscribers ensures subscribers[s] - {c} == subscribers[s] {
      assert c !in subscribers[s];
    }
  }

  /** After a run, the computation is subscribed to exactly the signals its
      body reads while tracking; every other computation's subscriptions are
      as before. */
  lemma ResubscribeExactly(subscribers: map<Sig, set<Comp>>, c: Comp, tracked: set<Sig>, s: Sig, d: Comp)
    requires s in subscribers
    ensures var r := SubscribedTo(UnsubscribedFrom(subscribers, c), c, tracked);
      && (c in r[s] <==> s in tracked)
      && (d != c ==> (d in r[s] <==> d in subscribers[s]))
  {
  }

  /** Re-running a computation that is already subscribed to exactly the
      signals its body tracks leaves every subscriber set as it was. */
  lemma RerunKeepsSubscribers(subscribers: map<Sig, set<Comp>>, sources: map<Comp, set<Sig>>, c: Comp)
    requires LinkedMaps(subscribers, sources) && c in sources && sources[c] <= subscribers.Keys
    ensures SubscribedTo(UnsubscribedFrom(subscribers, c), c, sources[c]) == subscribers
  {
    var r := SubscribedTo(UnsubscribedFrom(subscribers, c), c, sources[c]);
    forall s | s in subscribers ensures r[s] == subscribers[s] {
      if s in sources[c] {
        assert c in subscribers[s];
      } else {
        assert c !in subscribers[s];
      }
    }
  }

  /** The elements of a sequence. */
  function Elems(s: seq<Comp>): set<Comp>
  {
    set x | x in s
  }

  /** No computation appears twice. */
  predicate NoDup(s: seq<Comp>)
  {
    forall i, j :: 0 <= i < j < |s| ==> s[i] != s[j]
  }

  /** A list of a set's elements, each once: `Array.from` of a `Set`. The
      order of a JavaScript `Set` is its insertion order, which is not
      tracked here; any order is allowed. */
  method Listing(xs: set<Comp>) returns (order: seq<Comp>)
    ensures NoDup(order) && Elems(order) == xs
  {
    order := [];
    var rest := xs;
    while rest != {}
      invariant NoDup(order)
      invariant Elems(order) + rest == xs
      invariant Elems(order) !! rest
      decreases rest
    {
      var x :| x in rest;
      order := order + [x];
      rest := rest - {x};
    }
  }

  /** The runtime's module-level state. */
  class Runtime<V> {
    /** `_batchDepth`. */
    var batchDepth: nat
    /** `_pendingComputations`, a `Set` kept in insertion order. */
    var pending: seq<Comp>
    /** `_currentComputation`. */
    var current: Option<Comp>
    /** Each signal's current value. */
    var values: map<Sig, V>
    /** Each signal's subscriber set. */
    var subscribers: map<Sig, set<Comp>>
    /** Each computation's `_sources`: the signals it subscribed to. */
    var sources: map<Comp, set<Sig>>
    /** Each computation's function. */
    var bodies: map<Comp, Body>
    /** Every `_run` so far, in order. */
    var runs: seq<Comp>
    var nextSig: nat
    var nextComp: nat

    /** Subscriptions are recorded on both sides. */
    ghost predicate Linked()
      reads this`subscribers, this`sources
    {
      LinkedMaps(subscribers, sources)
    }

    /** Signals and computations are numbered below the next fresh number,
        and every signal a body reads exists. */
    ghost predicate Catalog()
      reads this`values, this`bodies, this`nextSig, this`nextComp
    {
      && (forall s :: s in values ==> s < nextSig)
      && (forall c :: c in bodies ==> c < nextComp)
      && (forall c :: c in bodies ==> bodies[c].tracked <= values.Keys && bodies[c].untracked <= values.Keys)
    }

    /** Every signal has a subscriber set and every computation a source
        set, and subscriptions are recorded on both sides. */
    ghost predicate Links()
      reads this`subscribers, this`values, this`sources, this`bodies
    {
      && subscribers.Keys == values.Keys
      && sources.Keys == bodies.Keys
      && Linked()
    }

    /** The pending list names known computations, each once. */
    ghost predicate Queue()
      reads this`pending, this`bodies
    {
      NoDup(pending) && Elems(pending) <= bodies.Keys
    }

    /** The bookkeeping that holds at every step, inside runs included. */
    ghost predicate Core()
      reads this`subscribers, this`values, this`sources, this`bodies, this`nextSig, this`nextComp, this`pending
    {
      Catalog() && Links() && Queue()
    }

    /** Every computation is subscribed to exactly the signals its body
        reads while tracking. Each run re-establishes this, and a body is
        fixed, so it holds between runs. */
    ghost predicate Settled()
      reads this`sources, this`bodies
    {
      forall c :: c in bodies ==> c in sources && sources[c] == bodies[c].tracked
    }

    /** The state between top-level calls: no computation running, every
        computation settled, and the pending set empty outside a batch. */
    ghost predicate Valid()
      reads this
    {
      Core() && Settled() && current == None && (batchDepth == 0 ==> pending == [])
    }

    constructor ()
      ensures Valid() && batchDepth == 0 && runs == []
      ensures values == map[] && bodies == map[]
    {
      batchDepth := 0;
      pending := [];
      current := None;
      values := map[];
      subscribers := map[];
      sources := map[];
      bodies := map[];
      runs := [];
      nextSig := 0;
      nextComp := 0;
    }

    /** `createSignal`: a fresh signal with no subscribers. */
    method CreateSignal(initial: V) returns (s: Sig)
      requires Valid()
      modifies this`values, this`subscribers, this`nextSig
      ensures Valid()
      ensures s !in old(values)
      ensures values == old(values)[s := initial]
      ensures subscribers == old(subscribers)[s := {}]
    {
      s := nextSig;
      nextSig := nextSig + 1;
      values := values[s := initial];
      subscribers := subscribers[s := {}];
    }

    /** A signal's `read`: inside a running computation it subscribes that
        computation; outside one (or inside `untrack`) it only reads. */
    method Read(s: Sig) returns (v: V)
      requires s in values && s in subscribers
      requires current.Some? ==> current.value in sources
      modifies this`subscribers, this`sources
      ensures v == values[s]
      ensures current.None? ==> subscribers == old(subscribers) && sources == old(sources)
      ensures current.Some? ==>
        && subscribers == old(subscribers)[s := old(subscribers)[s] + {current.value}]
        && sources == old(sources)[current.value := old(sources)[current.value] + {s}]
    {
      v := values[s];
      if current.Some? {
        var c := current.value;
        subscribers := subscribers[s := subscribers[s] + {c}];
        sources := sources[c := sources[c] + {s}];
      }
    }

    /** `untrack`: the reads happen with no current computation, which is
        restored afterwards, so no subscription is recorded. */
    method Untrack(signals: set<Sig>)
      requires signals <= values.Keys && signals <= subscribers.Keys
      modifies this`subscribers, this`sources, this`current
      ensures current == old(current)
      ensures subscribers == old(subscribers) && sources == old(sources)
    {
      var prev := current;
      current := None;
      var rest := signals;
      while rest != {}
        invariant current == None && rest <= signals
        invariant subscribers == old(subscribers) && sources == old(sources)
        decreases rest
      {
        var s :| s in rest;
        var _ := Read(s);
        rest := rest - {s};
      }
      current := prev;
    }

    /** The first half of `_run`: leave every signal read on the previous
        run. */
    method Unsubscribe(c: Comp)
      requires Links() && c in sources
      modifies this`subscribers, this`sources
      ensures Links()
      ensures subscribers == UnsubscribedFrom(old(subscribers), c)
      ensures sources == old(sources)[c := {}]
    {
      var rest := sources[c];
      while rest != {}
        invariant sources == old(sources) && rest <= old(sources)[c]
        invariant subscribers.Keys == old(subscribers).Keys
        invariant forall s :: s in subscribers ==> subscribers[s] - {c} == old(subscribers)[s] - {c}
        invariant forall s :: s in subscribers ==> (c in subscribers[s] <==> s in rest)
        decreases rest
      {
        var s :| s in rest;
        subscribers := subscribers[s := subscribers[s] - {c}];
        rest := rest - {s};
      }
      sources := sources[c := {}];
      forall s | s in subscribers
        ensures subscribers[s] == old(subscribers)[s] - {c}
      {
        assert c !in subscribers[s];
      }
      assert subscribers == UnsubscribedFrom(old(subscribers), c);
    }

    /** `_run`: unsubscribe, run the body with this computation current
        (tracked reads subscribe it again), restore the previous current
        computation. Afterwards the computation is subscribed to exactly the
        signals its body read while tracking; every other subscription is as
        before. */
    method Run(c: Comp)
      requires Core() && c in bodies
      modifies this`subscribers, this`sources, this`current, this`runs
      ensures Core()
      ensures current == old(current)
      ensures subscribers == SubscribedTo(UnsubscribedFrom(old(subscribers), c), c, bodies[c].tracked)
      ensures sources == old(sources)[c := bodies[c].tracked]
      ensures runs == old(runs) + [c]
    {
      Unsubscribe(c);
      var prev := current;
      current := Some(c);
      ReadTracked(c, bodies[c].tracked);
      Untrack(bodies[c].untracked);
      current := prev;
      runs := runs + [c];
    }

    /** `_run` of a settled computation: it ends subscribed to the same
        signals as before, so no subscription changes. */
    method Rerun(c: Comp)
      requires Core() && Settled() && c in bodies
      modifies this`subscribers, this`sources, this`current, this`runs
      ensures Core() && Settled()
      ensures current == old(current)
      ensures subscribers == old(subscribers) && sources == old(sources)
      ensures runs == old(runs) + [c]
    {
      RerunKeepsSubscribers(subscribers, sources, c);
      Run(c);
    }

    /** The tracked reads of a run, made with the computation current and
        its subscriptions cleared: they subscribe it to exactly the signals
        read. */
    method ReadTracked(c: Comp, tracked: set<Sig>)
      requires Links() && current == Some(c) && c in sources && sources[c] == {}
      requires tracked <= values.Keys
      modifies this`subscribers, this`sources
      ensures Links()
      ensures subscribers == SubscribedTo(old(subscribers), c, tracked)
      ensures sources == old(sources)[c := tracked]
    {
      var toRead := tracked;
      ghost var done: set<Sig> := {};
      assert sources == old(sources)[c := {}];
      while toRead != {}
        invariant done + toRead == tracked && done !! toRead
        invariant subscribers == SubscribedTo(old(subscribers), c, done)
        invariant sources == old(sources)[c := done]
        decreases toRead
      {
        var s :| s in toRead;
        var _ := Read(s);
        assert SubscribedTo(old(subscribers), c, done + {s})
            == SubscribedTo(old(subscribers), c, done)[s := SubscribedTo(old(subscribers), c, done)[s] + {c}];
        done := done + {s};
        toRead := toRead - {s};
      }
      SubscribeKeepsLinked(old(subscribers), old(sources), c, tracked);
    }

    /** `createEffect`: a fresh computation, run at once (even inside a
        batch). */
    method CreateEffect(body: Body) returns (c: Comp)
      requires Valid()
      requires body.tracked <= values.Keys && body.untracked <= values.Keys
      modifies this`bodies, this`sources, this`subscribers, this`current, this`runs, this`nextComp
      ensures Valid()
      ensures c !in old(bodies) && bodies == old(bodies)[c := body]
      ensures runs == old(runs) + [c]
      ensures subscribers == SubscribedTo(old(subscribers), c, body.tracked)
    {
      c := nextComp;
      nextComp := nextComp + 1;
      NewComputationUnlinked(subscribers, sources, c);
      bodies := bodies[c := body];
      sources := sources[c := {}];
      Run(c);
    }

    /** `_scheduleComputation`: inside a batch the computation joins the
        pending set (once); outside it runs at once. */
    method Schedule(c: Comp)
      requires Core() && Settled() && c in bodies
      modifies this`pending, this`subscribers, this`sources, this`current, this`runs
      ensures Core() && Settled()
      ensures current == old(current)
      ensures subscribers == old(subscribers) && sources == old(sources)
      ensures batchDepth > 0 ==>
        && pending == (if c in old(pending) then old(pending) else old(pending) + [c])
        && Elems(pending) == Elems(old(pending)) + {c}
        && runs == old(runs)
      ensures batchDepth == 0 ==> pending == old(pending) && runs == old(runs) + [c]
    {
      if batchDepth > 0 {
        if c !in pending {
          pending := pending + [c];
          assert Elems(pending) == Elems(old(pending)) + {c};
        }
        return;
      }
      Rerun(c);
    }

    /** A signal's `write`: store the value, then schedule every computation
        in a snapshot of the subscriber set. Returns the snapshot. */
    method Write(s: Sig, v: V) returns (order: seq<Comp>)
      requires Valid() && s in values
      modifies this`values, this`pending, this`subscribers, this`sources, this`current, this`runs
      ensures Valid()
      ensures values == old(values)[s := v]
      ensures NoDup(order) && Elems(order) == old(subscribers)[s]
      ensures subscribers == old(subscribers) && sources == old(sources)
      ensures batchDepth == 0 ==> runs == old(runs) + order
      ensures batchDepth > 0 ==>
        && runs == old(runs)
        && |old(pending)| <= |pending| && pending[..|old(pending)|] == old(pending)
        && Elems(pending) == Elems(old(pending)) + old(subscribers)[s]
    {
      values := values[s := v];
      order := Listing(subscribers[s]);
      ScheduleAll(order);
    }

    /** The loop of `write` over the subscriber snapshot. */
    method ScheduleAll(order: seq<Comp>)
      requires Valid() && Elems(order) <= bodies.Keys
      modifies this`pending, this`subscribers, this`sources, this`current, this`runs
      ensures Valid()
      ensures subscribers == old(subscribers) && sources == old(sources)
      ensures batchDepth == 0 ==> runs == old(runs) + order
      ensures batchDepth > 0 ==>
        && runs == old(runs)
        && |old(pending)| <= |pending| && pending[..|old(pending)|] == old(pending)
        && Elems(pending) == Elems(old(pending)) + Elems(order)
    {
      var i := 0;
      while i < |order|
        invariant 0 <= i <= |order|
        invariant Valid()
        invariant subscribers == old(subscribers) && sources == old(sources)
        invariant batchDepth == 0 ==> runs == old(runs) + order[..i]
        invariant batchDepth > 0 ==>
          && runs == old(runs)
          && |old(pending)| <= |pending| && pending[..|old(pending)|] == old(pending)
          && Elems(pending) == Elems(old(pending)) + Elems(order[..i])
      {
        ScheduleNext(order, i);
        i := i + 1;
      }
      assert order[..i] == order;
    }

    /** One turn of the loop of `write`: schedule `order[i]`. */
    method ScheduleNext(order: seq<Comp>, i: nat)
      requires Valid() && i < |order| && Elems(order) <= bodies.Keys
      modifies this`pending, this`subscribers, this`sources, this`current, this`runs
      ensures Valid()
      ensures subscribers == old(subscribers) && sources == old(sources)
      ensures batchDepth == 0 ==> runs == old(runs) + [order[i]]
      ensures batchDepth > 0 ==>
        && runs == old(runs)
        && |old(pending)| <= |pending| && pending[..|old(pending)|] == old(pending)
        && Elems(pending) == Elems(old(pending)) + {order[i]}
      ensures Elems(order[..i + 1]) == Elems(order[..i]) + {order[i]}
    {
      assert order[i] in Elems(order);
      Schedule(order[i]);
      assert order[..i + 1] == order[..i] + [order[i]];
    }

    /** The entry half of `batch`. */
    method BeginBatch()
      requires Valid()
      modifies this`batchDepth
      ensures Valid()
      ensures batchDepth == old(batchDepth) + 1
    {
      batchDepth := batchDepth + 1;
    }

    /** The `finally` of `batch`: leave one level; leaving the outermost
        level runs every pending computation once, in the order it was first
        scheduled, and empties the pending set. */
    method EndBatch()
      requires Core() && Settled() && current == None && batchDepth > 0
      modifies this`batchDepth, this`pending, this`subscribers, this`sources, this`current, this`runs
      ensures Valid()
      ensures batchDepth == old(batchDepth) - 1
      ensures subscribers == old(subscribers) && sources == old(sources)
      ensures batchDepth == 0 ==> pending == [] && runs == old(runs) + old(pending)
      ensures batchDepth > 0 ==> pending == old(pending) && runs == old(runs)
    {
      batchDepth := batchDepth - 1;
      if batchDepth == 0 && pending != [] {
        var toRun := pending;
        pending := [];
        var i := 0;
        while i < |toRun|
          invariant 0 <= i <= |toRun|
          invariant Core() && Settled() && current == None && pending == [] && batchDepth == 0
          invariant subscribers == old(subscribers) && sources == old(sources)
          invariant Elems(toRun) <= bodies.Keys
          invariant runs == old(runs) + toRun[..i]
        {
          RunNext(toRun, i);
          i := i + 1;
        }
        assert toRun[..i] == toRun;
      }
    }

    /** One turn of the flush loop of `batch`: run `toRun[i]`. */
    method RunNext(toRun: seq<Comp>, i: nat)
      requires Core() && Settled() && i < |toRun| && Elems(toRun) <= bodies.Keys
      modifies this`subscribers, this`sources, this`current, this`runs
      ensures Core() && Settled() && current == old(current)
      ensures subscribers == old(subscribers) && sources == old(sources)
      ensures runs == old(runs) + [toRun[i]]
      ensures toRun[..i + 1] == toRun[..i] + [toRun[i]]
    {
      assert toRun[i] in Elems(toRun);
      Rerun(toRun[i]);
      assert toRun[..i + 1] == toRun[..i] + [toRun[i]];
    }

    /** Every signal a batch function writes exists. */
    ghost predicate Writable(steps: seq<Step<V>>)
      reads this
    {
      Mentioned(steps) <= values.Keys
    }

    /** The statements of a batch function, run inside at least one batch
        level: each write schedules into the pending set, nothing runs, and
        a throw stops the rest. */
    method RunSteps(steps: seq<Step<V>>) returns (threw: bool)
      requires Valid() && batchDepth > 0 && Writable(steps)
      modifies this`values, this`pending, this`subscribers, this`sources, this`current, this`runs, this`batchDepth
      ensures Valid()
      ensures batchDepth == old(batchDepth)
      ensures threw == Trace(steps).1
      ensures values == Apply(old(values), Trace(steps).0)
      ensures subscribers == old(subscribers) && sources == old(sources) && runs == old(runs)
      ensures |old(pending)| <= |pending| && pending[..|old(pending)|] == old(pending)
      ensures Elems(pending) == Elems(old(pending)) + Scheduled(Trace(steps).0, old(subscribers))
      decreases steps, 1
    {
      if steps == [] {
        return false;
      }
      match steps[0] {
        case Assign(s, v) =>
          var _ := Write(s, v);
          threw := RunSteps(steps[1..]);
        case Nested(inner) =>
          threw := RunNested(steps);
        case Raise =>
          threw := true;
      }
    }

    /** A nested `batch` statement followed by the rest of the function. */
    method RunNested(steps: seq<Step<V>>) returns (threw: bool)
      requires Valid() && batchDepth > 0 && Writable(steps)
      requires steps != [] && steps[0].Nested?
      modifies this`values, this`pending, this`subscribers, this`sources, this`current, this`runs, this`batchDepth
      ensures Valid()
      ensures batchDepth == old(batchDepth)
      ensures threw == Trace(steps).1
      ensures values == Apply(old(values), Trace(steps).0)
      ensures subscribers == old(subscribers) && sources == old(sources) && runs == old(runs)
      ensures |old(pending)| <= |pending| && pending[..|old(pending)|] == old(pending)
      ensures Elems(pending) == Elems(old(pending)) + Scheduled(Trace(steps).0, old(subscribers))
      decreases steps, 0
    {
      var inner := steps[0].steps;
      threw := Batch(inner);
      if !threw {
        ApplyConcat(old(values), Trace(inner).0, Trace(steps[1..]).0);
        ScheduledConcat(Trace(inner).0, Trace(steps[1..]).0, old(subscribers));
        threw := RunSteps(steps[1..]);
      }
    }

    /** `batch(fn)`: the statements run one level deeper; the level is
        restored whether or not they throw. Leaving the outermost batch runs
        each computation scheduled during it exactly once. */
    method Batch(steps: seq<Step<V>>) returns (threw: bool)
      requires Valid() && Writable(steps)
      modifies this`values, this`pending, this`subscribers, this`sources, this`current, this`runs, this`batchDepth
      ensures Valid()
      ensures batchDepth == old(batchDepth)
      ensures threw == Trace(steps).1
      ensures values == Apply(old(values), Trace(steps).0)
      ensures subscribers == old(subscribers) && sources == old(sources)
      ensures old(batchDepth) > 0 ==>
        && runs == old(runs)
        && |old(pending)| <= |pending| && pending[..|old(pending)|] == old(pending)
        && Elems(pending) == Elems(old(pending)) + Scheduled(Trace(steps).0, old(subscribers))
      ensures old(batchDepth) == 0 ==>
        && pending == []
        && |old(runs)| <= |runs| && runs[..|old(runs)|] == old(runs)
        && NoDup(runs[|old(runs)|..])
        && Elems(runs[|old(runs)|..]) == Scheduled(Trace(steps).0, old(subscribers))
      decreases steps, 2
    {
      BeginBatch();
      threw := RunSteps(steps);
      ghost var flushed := pending;
      EndBatch();
      if old(batchDepth) == 0 {
        assert runs[|old(runs)|..] == flushed;
      }
    }
  }

  /** An effect that reads a signal is run again by every write to that
      signal, not only the first: the run a write causes subscribes it
      again. */
  method EffectRerunsOnEveryWrite() returns (r: Runtime<int>, c: Comp, first: seq<Comp>, second: seq<Comp>)
    ensures first == [c] && second == [c]
  {
    r := new Runtime<int>();
    var s := r.CreateSignal(0);
    c := r.CreateEffect(Body({s}, {}));
    assert r.subscribers[s] == {c};
    first := WriteToSoleSubscriber(r, s, c, 1);
    second := WriteToSoleSubscriber(r, s, c, 2);
  }

  /** A write outside any batch to a signal with one subscriber runs that
      subscriber once and leaves it subscribed. */
  method WriteToSoleSubscriber(r: Runtime<int>, s: Sig, c: Comp, v: int) returns (order: seq<Comp>)
    requires r.Valid() && r.batchDepth == 0 && s in r.values && r.subscribers[s] == {c}
    modifies r
    ensures r.Valid() && r.batchDepth == 0 && s in r.values && r.subscribers[s] == {c}
    ensures order == [c] && r.runs == old(r.runs) + [c]
  {
    order := r.Write(s, v);
    SoleElement(order, c);
  }

  /** A duplicate-free sequence whose only element is `c` is `[c]`. */
  lemma SoleElement(order: seq<Comp>, c: Comp)
    requires NoDup(order) && Elems(order) == {c}
    ensures order == [c]
  {
    assert c in Elems(order);
    if |order| > 1 {
      FirstTwoDiffer(order);
      assert false;
    }
  }

  /** The first two entries of a duplicate-free sequence differ. */
  lemma FirstTwoDiffer(order: seq<Comp>)
    requires NoDup(order) && |order| > 1
    ensures order[0] != order[1] && order[0] in Elems(order) && order[1] in Elems(order)
  {
  }

  lemma {:induction false} ApplyConcat<V>(values: map<Sig, V>, a: seq<Assignment<V>>, b: seq<Assignment<V>>)
    ensures Apply(values, a + b) == Apply(Apply(values, a), b)
    decreases a
  {
    if a != [] {
      assert (a + b)[1..] == a[1..] + b;
      ApplyConcat(values[a[0].signal := a[0].value], a[1..], b);
    } else {
      assert a + b == b;
    }
  }

  lemma {:induction false} ScheduledConcat<V>(a: seq<Assignment<V>>, b: seq<Assignment<V>>, subscribers: map<Sig, set<Comp>>)
    ensures Scheduled(a + b, subscribers) == Scheduled(a, subscribers) + Scheduled(b, subscribers)
  {
    if a != [] {
      assert (a + b)[1..] == a[1..] + b;
      ScheduledConcat(a[1..], b, subscribers);
    } else {
      assert a + b == b;
    }
  }
}
