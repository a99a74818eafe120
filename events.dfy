/** The event manager: a timer that, once it reaches the interval, fires one environment
    event, fans it out to every actor of the emotion engine, reports it through the
    notification and memory callbacks, and keeps a bounded history of recent events. */
module Events {
  import opened Emotion
  import Text

  /** An environment event: its name and its description. */
  datatype EnvEvent = EnvEvent(evento: string, desc: string)

  /** One call the manager makes to a callback it was given. */
  datatype Callback =
    | Notify(message: string)               // on_event_callback(message)
    | Save(actor: string, message: string)  // save_memory_fn(actor, message)

  /** The text a fired event is reported with. */
  function Message(e: EnvEvent): (msg: string)
    ensures |msg| == |e.evento| + |e.desc| + 12
    ensures msg[..9] == "[EVENTO] "
    ensures Text.OccursAt(msg, e.evento, 9)
    ensures msg[9 + |e.evento|..12 + |e.evento|] == " \U{2192} "
    ensures msg[|msg| - |e.desc|..] == e.desc
  {
    "[EVENTO] " + e.evento + " \U{2192} " + e.desc
  }

  /** The callbacks one trigger makes: one notification, then one memory record per actor,
      in the engine's actor order, all with the same message. */
  function TriggerCallbacks(actors: seq<string>, message: string): seq<Callback> {
    [Notify(message)] + SaveAll(actors, message)
  }

  function SaveAll(actors: seq<string>, message: string): seq<Callback>
    decreases |actors|
  {
    if actors == [] then [] else SaveAll(actors[..|actors| - 1], message) + [Save(actors[|actors| - 1], message)]
  }

  /** How many notifications a trace holds. */
  function Notifications(calls: seq<Callback>): nat
    decreases |calls|
  {
    if calls == [] then 0 else Notifications(calls[..|calls| - 1]) + (if calls[|calls| - 1].Notify? then 1 else 0)
  }

  /** How many memory records for one actor a trace holds. */
  function SavesFor(calls: seq<Callback>, actor: string): nat
    decreases |calls|
  {
    if calls == [] then 0
    else SavesFor(calls[..|calls| - 1], actor) + (if calls[|calls| - 1].Save? && calls[|calls| - 1].actor == actor then 1 else 0)
  }

  lemma {:induction false} SaveAllSpec(actors: seq<string>, message: string)
    ensures |SaveAll(actors, message)| == |actors|
    ensures forall i :: 0 <= i < |actors| ==> SaveAll(actors, message)[i] == Save(actors[i], message)
    ensures Notifications(SaveAll(actors, message)) == 0
    decreases |actors|
  {
    if actors != [] {
      SaveAllSpec(actors[..|actors| - 1], message);
    }
  }

  lemma {:induction false} NotificationsAppend(a: seq<Callback>, b: seq<Callback>)
    ensures Notifications(a + b) == Notifications(a) + Notifications(b)
    decreases |b|
  {
    if b == [] {
      assert a + b == a;
    } else {
      assert (a + b)[..|a + b| - 1] == a + b[..|b| - 1];
      assert (a + b)[|a + b| - 1] == b[|b| - 1];
      NotificationsAppend(a, b[..|b| - 1]);
    }
  }

  lemma {:induction false} SavesForAll(actors: seq<string>, message: string, actor: string)
    requires NoDuplicates(actors)
    ensures SavesFor(SaveAll(actors, message), actor) == if actor in actors then 1 else 0
    decreases |actors|
  {
    if actors != [] {
      var init := actors[..|actors| - 1];
      SavesForAll(init, message, actor);
      assert actors == init + [actors[|actors| - 1]];
      assert SaveAll(actors, message)[..|SaveAll(actors, message)| - 1] == SaveAll(init, message);
    }
  }

  /** One trigger notifies exactly once and records the message once for every actor. */
  lemma TriggerCallbackCounts(actors: seq<string>, message: string, actor: string)
    requires NoDuplicates(actors)
    ensures Notifications(TriggerCallbacks(actors, message)) == 1
    ensures SavesFor(TriggerCallbacks(actors, message), actor) == if actor in actors then 1 else 0
    ensures |TriggerCallbacks(actors, message)| == |actors| + 1
  {
    SaveAllSpec(actors, message);
    NotificationsAppend([Notify(message)], SaveAll(actors, message));
    assert Notifications([Notify(message)]) == 1 by {
      assert [Notify(message)][..0] == [];
    }
    SavesForAll(actors, message, actor);
    SavesForPrefix(Notify(message), SaveAll(actors, message), actor);
  }

  lemma {:induction false} SavesForPrefix(c: Callback, calls: seq<Callback>, actor: string)
    requires c.Notify?
    ensures SavesFor([c] + calls, actor) == SavesFor(calls, actor)
    decreases |calls|
  {
    if calls == [] {
      assert [c] + calls == [c];
      assert [c][..0] == [];
    } else {
      assert ([c] + calls)[..|calls|] == [c] + calls[..|calls| - 1];
      SavesForPrefix(c, calls[..|calls| - 1], actor);
    }
  }

  lemma TriggerCallbacksStep(earlier: seq<Callback>, actors: seq<string>, i: nat, message: string)
    requires i < |actors|
    ensures earlier + TriggerCallbacks(actors[..i], message) + [Save(actors[i], message)]
      == earlier + TriggerCallbacks(actors[..i + 1], message)
  {
    assert actors[..i + 1][..i] == actors[..i];
  }

  /** The bounded history as a function of everything fired: the last `size` events,
      none when size is not positive. */
  function Recent(fired: seq<EnvEvent>, size: int): (h: seq<EnvEvent>)
    ensures size >= 0 ==> |h| <= size
    ensures size >= 0 ==> |h| == if |fired| <= size then |fired| else size
    ensures |h| <= |fired| && h == fired[|fired| - |h|..]
  {
    if size <= 0 then [] else if |fired| <= size then fired else fired[|fired| - size..]
  }

  /** Appending an event and dropping the oldest entry when the history is over its size
      is the history of everything fired, one event later. */
  lemma HistoryStep(fired: seq<EnvEvent>, e: EnvEvent, size: int)
    ensures var h := Recent(fired, size) + [e];
      (if |h| > size then h[1..] else h) == Recent(fired + [e], size)
  {
    var h := Recent(fired, size) + [e];
    if size > 0 && |fired| >= size {
      assert h[1..] == (fired + [e])[|fired| + 1 - size..];
    }
  }

  /** Three festivals with room for two: the oldest is evicted. */
  lemma HistoryExample(e1: EnvEvent, e2: EnvEvent, e3: EnvEvent)
    ensures Recent([e1, e2, e3], 2) == [e2, e3]
    ensures Recent([e1, e2, e3], 5) == [e1, e2, e3]
  {
  }

  /** Every actor's vector after the event has been handled for all of them. */
  function FanOut(emotions: map<string, Vector>, evento: string): map<string, Vector> {
    map a | a in emotions :: React(emotions[a], EventRule(evento))
  }

  /** The fan-out keeps the set of actors and every vector well formed. */
  lemma FanOutPreserves(emotions: map<string, Vector>, evento: string)
    ensures FanOut(emotions, evento).Keys == emotions.Keys
    ensures AllWellFormed(emotions) ==> AllWellFormed(FanOut(emotions, evento))
  {
    forall a | a in emotions
      ensures WellFormed(emotions[a]) ==> WellFormed(FanOut(emotions, evento)[a])
    {
      ReactPreserves(emotions[a], EventRule(evento));
    }
  }

  /** The vectors once the actors in `done` have handled the event and the others not yet. */
  function PartialFanOut(emotions: map<string, Vector>, done: seq<string>, evento: string): map<string, Vector> {
    map a | a in emotions :: if a in done then React(emotions[a], EventRule(evento)) else emotions[a]
  }

  lemma FanOutStep(before: map<string, Vector>, current: map<string, Vector>, actors: seq<string>, i: nat, evento: string)
    requires i < |actors| && NoDuplicates(actors) && actors[i] in before
    requires current == PartialFanOut(before, actors[..i], evento)
    ensures current[actors[i] := React(current[actors[i]], EventRule(evento))] == PartialFanOut(before, actors[..i + 1], evento)
  {
    assert actors[..i + 1] == actors[..i] + [actors[i]];
    assert actors[i] !in actors[..i];
  }

  lemma FanOutDone(before: map<string, Vector>, actors: seq<string>, evento: string)
    requires forall a :: a in before ==> a in actors
    ensures PartialFanOut(before, actors, evento) == FanOut(before, evento)
  {
  }

  /** The event manager. */
  class EventManager {
    const eventList: seq<EnvEvent>
    const engine: EmotionEngine
    const interval: real
    const historySize: int
    var envTimer: real
    var recentEvents: seq<EnvEvent>
    /** Every event fired so far, oldest first. */
    ghost var fired: seq<EnvEvent>
    /** Every call made to the two callbacks, in order. */
    ghost var callbacks: seq<Callback>

    ghost predicate Valid()
      reads this, engine
    {
      engine.Valid() && recentEvents == Recent(fired, historySize)
    }

    /** A manager with its timer at 0 and an empty history. */
    constructor (eventList: seq<EnvEvent>, engine: EmotionEngine, interval: real := 15.0, historySize: int := 5)
      requires engine.Valid()
      ensures Valid()
      ensures this.eventList == eventList && this.engine == engine
      ensures this.interval == interval && this.historySize == historySize
      ensures envTimer == 0.0 && recentEvents == [] && fired == [] && callbacks == []
    {
      this.eventList := eventList;
      this.engine := engine;
      this.interval := interval;
      this.historySize := historySize;
      envTimer := 0.0;
      recentEvents := [];
      fired := [];
      callbacks := [];
      new;
      assert Recent(fired, historySize) == [];
    }

    /** `update`: the timer accumulates dt; below the interval nothing else happens, at or
        above it exactly one event fires (the one at index `pick`) and the timer goes back to
        0.0, the time beyond the interval being dropped. */
    method Update(dt: real := 1.0, pick: nat)
      requires Valid()
      requires envTimer + dt >= interval ==> pick < |eventList|
      modifies this, engine
      ensures Valid()
      ensures historySize >= 0 ==> |recentEvents| <= historySize
      ensures old(envTimer) + dt < interval ==>
        && envTimer == old(envTimer) + dt
        && recentEvents == old(recentEvents) && fired == old(fired) && callbacks == old(callbacks)
        && engine.emotions == old(engine.emotions)
      ensures old(envTimer) + dt >= interval ==>
        && envTimer == 0.0
        && fired == old(fired) + [eventList[pick]]
        && engine.emotions == FanOut(old(engine.emotions), eventList[pick].evento)
        && callbacks == old(callbacks) + TriggerCallbacks(engine.actors, Message(eventList[pick]))
    {
      envTimer := envTimer + dt;
      if envTimer >= interval {
        TriggerEvent(pick);
      }
    }

    /** `_trigger_event`: fires the event at index `pick`. Every actor of the engine handles
        the event's name (not its description); the notification callback gets the message once
        and the memory callback gets it once per actor; the event is appended to the history,
        whose oldest entry goes when it is over its size; the timer is reset to 0.0. */
    method TriggerEvent(pick: nat)
      requires Valid()
      requires pick < |eventList|
      modifies this, engine
      ensures Valid()
      ensures envTimer == 0.0
      ensures fired == old(fired) + [eventList[pick]]
      ensures recentEvents == Recent(fired, historySize)
      ensures engine.emotions == FanOut(old(engine.emotions), eventList[pick].evento)
      ensures callbacks == old(callbacks) + TriggerCallbacks(engine.actors, Message(eventList[pick]))
    {
      var e := eventList[pick];
      FanOutEvent(e.evento);

      var message := Message(e);
      RecordCallbacks(message);

      recentEvents := recentEvents + [e];
      fired := fired + [e];
      if |recentEvents| > historySize {
        recentEvents := recentEvents[1..];
      }
      HistoryStep(old(fired), e, historySize);

      envTimer := 0.0;
    }

    /** The first loop of `_trigger_event`: every actor of the engine, in its order, handles the event. */
    method FanOutEvent(evento: string)
      requires engine.Valid()
      modifies engine
      ensures engine.Valid()
      ensures engine.emotions == FanOut(old(engine.emotions), evento)
    {
      var actors := engine.actors;
      ghost var before := engine.emotions;
      var i := 0;
      while i < |actors|
        invariant 0 <= i <= |actors|
        invariant engine.Valid()
        invariant engine.emotions == PartialFanOut(before, actors[..i], evento)
      {
        FanOutStep(before, engine.emotions, actors, i, evento);
        engine.HandleEvent(actors[i], evento);
        i := i + 1;
      }
      assert actors[..|actors|] == actors;
      FanOutDone(before, actors, evento);
    }

    /** The callbacks of `_trigger_event`: the notification once, then the memory record for
        every actor of the engine, in its order. */
    method RecordCallbacks(message: string)
      modifies this`callbacks
      ensures callbacks == old(callbacks) + TriggerCallbacks(engine.actors, message)
    {
      var actors := engine.actors;
      callbacks := callbacks + [Notify(message)];
      assert callbacks == old(callbacks) + TriggerCallbacks(actors[..0], message);
      var i := 0;
      while i < |actors|
        invariant 0 <= i <= |actors|
        invariant callbacks == old(callbacks) + TriggerCallbacks(actors[..i], message)
      {
        TriggerCallbacksStep(old(callbacks), actors, i, message);
        callbacks := callbacks + [Save(actors[i], message)];
        i := i + 1;
      }
      assert actors[..|actors|] == actors;
    }
  }
}
