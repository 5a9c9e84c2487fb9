/** `replay_subject` of rx.h: a hot observable that keeps every event sent
    to it and fans each one out to all attached observers; an observer that
    subscribes late is first sent the whole log. Observers are passive here:
    what each one does on a call is given by its handlers, and the subject's
    record of those effects stands for the observers' own state. */
module ReplaySubjects {
  import opened Observers

  /** `event_type`: `next` is not final; `error` and `completed` are. */
  datatype EventType = NextType | ErrorType | CompletedType

  /** The kind of an event, as `event`'s constructors set it. */
  function TypeOf<T, E>(s: Signal<T, E>): EventType {
    match s
    case Next(_) => NextType
    case Error(_) => ErrorType
    case Completed => CompletedType
  }

  /** Every call one event makes, into each observer in attachment order. */
  function Broadcast<T, E, A>(os: seq<Observer<T, E, A>>, e: Signal<T, E>): seq<A> {
    FlatMap((o: Observer<T, E, A>) => Send(o, e), os)
  }

  lemma BroadcastStep<T, E, A>(os: seq<Observer<T, E, A>>, i: nat, e: Signal<T, E>)
    requires i < |os|
    ensures Broadcast(os[..i + 1], e) == Broadcast(os[..i], e) + Send(os[i], e)
  {
    var f := (o: Observer<T, E, A>) => Send(o, e);
    assert os[..i + 1] == os[..i] + [os[i]];
    FlatMapAppend(f, os[..i], [os[i]]);
    assert [os[i]][1..] == [];
    assert FlatMap(f, [os[i]]) == f(os[i]) + [];
  }

  /** Appending one event to a log whose type is still `next` keeps the log
      well-formed, and the new event is the only terminal it can hold. */
  lemma AppendToOpenLog<T, E>(events: seq<Signal<T, E>>, e: Signal<T, E>)
    requires WellFormed(events)
    requires events == [] || TypeOf(events[|events| - 1]) == NextType
    ensures WellFormed(events + [e])
  {
    assert OnlyNexts(events);
    WellFormedAppend(events, [e]);
  }

  class ReplaySubject<T, E, A> {
    /** `state::events`: every event sent so far, in order. */
    var events: seq<Signal<T, E>>
    /** `state::observers`: the attached observers, in attachment order. */
    var observers: seq<Observer<T, E, A>>
    /** `state::final_event_type`: the type of the last event, `next` while
        the subject is open. */
    var finalEventType: EventType
    /** What each attachment has done so far, one entry per observer. */
    var received: seq<seq<A>>
    /** What the subject has made its observers do, in the order of the
        calls. */
    var output: seq<A>

    /** The subject's invariant: the log has at most one terminal event and
        only at its end, `final_event_type` is the type of the last event,
        and every attached observer has been sent exactly the log, in order,
        whenever it subscribed. */
    ghost predicate Valid()
      reads this
    {
      && WellFormed(events)
      && finalEventType == (if events == [] then NextType else TypeOf(events[|events| - 1]))
      && |received| == |observers|
      && forall i | 0 <= i < |observers| :: received[i] == Deliver(observers[i], events)
    }

    /** A new subject: no events, no observers, open. */
    constructor ()
      ensures Valid()
      ensures events == [] && observers == [] && finalEventType == NextType
      ensures received == [] && output == []
    {
      events := [];
      observers := [];
      finalEventType := NextType;
      received := [];
      output := [];
    }

    /** `subscribe(o)`: attach `o` at the end of the list, then send it every
        logged event in order. The log is not changed. */
    method Subscribe(o: Observer<T, E, A>)
      requires Valid()
      modifies this
      ensures Valid()
      ensures events == old(events) && finalEventType == old(finalEventType)
      ensures observers == old(observers) + [o]
      ensures received == old(received) + [Deliver(o, events)]
      ensures output == old(output) + Deliver(o, events)
    {
      observers := observers + [o];
      received := received + [[]];
      var k := |observers| - 1;
      var i := 0;
      while i < |events|
        invariant 0 <= i <= |events|
        invariant events == old(events) && finalEventType == old(finalEventType)
        invariant observers == old(observers) + [o]
        invariant |received| == |observers| && received[..k] == old(received)
        invariant received[k] == Deliver(o, events[..i])
        invariant output == old(output) + Deliver(o, events[..i])
      {
        // e.send(o)
        var effects := Send(o, events[i]);
        received := received[k := received[k] + effects];
        output := output + effects;
        assert events[..i + 1] == events[..i] + [events[i]];
        DeliverAppend(o, events[..i], [events[i]]);
        DeliverSingle(o, events[i]);
        i := i + 1;
      }
      assert events[..i] == events;
    }

    /** `state::add_event(e)`: only while the subject is open (the C++
        asserts it); records the event's type, appends it to the log and
        sends it to every attached observer in attachment order. */
    method AddEvent(e: Signal<T, E>)
      requires Valid()
      requires finalEventType == NextType
      modifies this
      ensures Valid()
      ensures events == old(events) + [e]
      ensures finalEventType == TypeOf(e)
      ensures observers == old(observers)
      ensures |received| == |old(received)|
      ensures forall i | 0 <= i < |observers| :: received[i] == old(received[i]) + Send(observers[i], e)
      ensures output == old(output) + Broadcast(observers, e)
    {
      AppendToOpenLog(events, e);
      finalEventType := TypeOf(e);
      events := events + [e];
      var i := 0;
      while i < |observers|
        invariant 0 <= i <= |observers|
        invariant events == old(events) + [e] && finalEventType == TypeOf(e)
        invariant observers == old(observers)
        invariant |received| == |observers|
        invariant forall j | 0 <= j < i :: received[j] == old(received[j]) + Send(observers[j], e)
        invariant forall j | i <= j < |observers| :: received[j] == old(received[j])
        invariant output == old(output) + Broadcast(observers[..i], e)
      {
        // ev.send(o)
        var effects := Send(observers[i], e);
        received := received[i := received[i] + effects];
        output := output + effects;
        BroadcastStep(observers, i, e);
        i := i + 1;
      }
      assert observers[..i] == observers;
      forall j | 0 <= j < |observers|
        ensures received[j] == Deliver(observers[j], events)
      {
        DeliverAppend(observers[j], old(events), [e]);
        DeliverSingle(observers[j], e);
      }
    }

    /** `send_next(x)`. */
    method SendNext(x: T)
      requires Valid()
      requires finalEventType == NextType
      modifies this
      ensures Valid()
      ensures events == old(events) + [Next(x)] && finalEventType == NextType
      ensures observers == old(observers)
      ensures |received| == |old(received)|
      ensures forall i | 0 <= i < |observers| :: received[i] == old(received[i]) + observers[i].onNext(x)
      ensures output == old(output) + Broadcast(observers, Next(x))
    {
      AddEvent(Next(x));
    }

    /** `send_error(e)`: the subject becomes errored. */
    method SendError(err: E)
      requires Valid()
      requires finalEventType == NextType
      modifies this
      ensures Valid()
      ensures events == old(events) + [Error(err)] && finalEventType == ErrorType
      ensures observers == old(observers)
      ensures |received| == |old(received)|
      ensures forall i | 0 <= i < |observers| :: received[i] == old(received[i]) + observers[i].onError(err)
      ensures output == old(output) + Broadcast(observers, Error(err))
    {
      AddEvent(Error(err));
    }

    /** `send_completed()`: the subject becomes completed. */
    method SendCompleted()
      requires Valid()
      requires finalEventType == NextType
      modifies this
      ensures Valid()
      ensures events == old(events) + [Completed] && finalEventType == CompletedType
      ensures observers == old(observers)
      ensures |received| == |old(received)|
      ensures forall i | 0 <= i < |observers| :: received[i] == old(received[i]) + observers[i].onCompleted
      ensures output == old(output) + Broadcast(observers, Completed)
    {
      AddEvent(Completed);
    }
  }

  /** Once the subject is closed, its log holds exactly one terminal event,
      at the end. */
  lemma ClosedLogEndsOnce<T, E>(events: seq<Signal<T, E>>, finalEventType: EventType)
    requires WellFormed(events)
    requires finalEventType == (if events == [] then NextType else TypeOf(events[|events| - 1]))
    requires finalEventType != NextType
    ensures events != [] && events[|events| - 1].IsTerminal()
    ensures CountTerminals(events) == 1
  {
    AtMostOneTerminal(events);
    TerminalCounted(events, |events| - 1);
  }

  lemma {:induction false} TerminalCounted<T, E>(t: seq<Signal<T, E>>, k: nat)
    requires k < |t| && t[k].IsTerminal()
    ensures CountTerminals(t) >= 1
  {
    if k > 0 {
      TerminalCounted(t[1..], k - 1);
    }
  }

  /** Two observers, one attached before and one after `send_next(1)`,
      `send_next(2)`, `send_completed()`, both end up with exactly
      `[next(1), next(2), completed]`, and the subject is no longer open, so
      a further `send_next` is outside its contract. */
  method ReplayScenario() returns (early: seq<Signal<int, string>>, late: seq<Signal<int, string>>, open: bool)
    ensures early == [Next(1), Next(2), Completed]
    ensures late == early
    ensures !open
  {
    var subject := new ReplaySubject<int, string, Signal<int, string>>();
    subject.Subscribe(Recorder());
    subject.SendNext(1);
    subject.SendNext(2);
    subject.SendCompleted();
    subject.Subscribe(Recorder());
    RecorderRecords(subject.events);
    early := subject.received[0];
    late := subject.received[1];
    open := subject.finalEventType == NextType;
  }
}
