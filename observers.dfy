/** The observer protocol of rx.h: the three signals, the observer shapes
    (`tuple_observer` built by `make_observer`, `forwarding_observer`,
    `uncompletable_observer`, `any_observer`) and what an observer does when
    a sequence of signals is pushed into it.

    An observer is modelled by what each of its three entry points does: a
    handler gives the sequence of effects (of an arbitrary type `A`) that one
    call performs. Pushing a trace into an observer performs the handlers'
    effects one signal after another. */
module Observers {
  import opened Maybe

  /** One signal of the protocol; a finite sequence of them is a trace. */
  datatype Signal<T, E> = Next(value: T) | Error(error: E) | Completed {
    /** `error` and `completed` end a subscription; `next` does not. */
    predicate IsTerminal() {
      !Next?
    }
  }

  /** `send_next`, `send_error`, `send_completed`, by their effects. */
  datatype Observer<!T, !E, A> = Observer(onNext: T -> seq<A>, onError: E -> seq<A>, onCompleted: seq<A>)

  /** One call into the observer: the switch on the signal's kind. */
  function Send<T, E, A>(o: Observer<T, E, A>, s: Signal<T, E>): seq<A> {
    match s
    case Next(x) => o.onNext(x)
    case Error(e) => o.onError(e)
    case Completed => o.onCompleted
  }

  /** The effects of pushing the trace `t`, in order, into `o`. */
  function Deliver<T, E, A>(o: Observer<T, E, A>, t: seq<Signal<T, E>>): seq<A> {
    if t == [] then [] else Send(o, t[0]) + Deliver(o, t[1..])
  }

  /** Delivering two traces one after the other is delivering their
      concatenation. */
  lemma {:induction false} DeliverAppend<T, E, A>(o: Observer<T, E, A>, a: seq<Signal<T, E>>, b: seq<Signal<T, E>>)
    ensures Deliver(o, a + b) == Deliver(o, a) + Deliver(o, b)
  {
    if a == [] {
      assert a + b == b;
    } else {
      assert (a + b)[1..] == a[1..] + b;
      DeliverAppend(o, a[1..], b);
    }
  }

  /** Delivering a single signal is one call into the observer. */
  lemma DeliverSingle<T, E, A>(o: Observer<T, E, A>, s: Signal<T, E>)
    ensures Deliver(o, [s]) == Send(o, s)
  {
    assert [s][1..] == [];
    assert Deliver(o, [s]) == Send(o, s) + [];
  }

  // Traces

  /** At most one terminal signal, and if there is one it is the last. */
  ghost predicate WellFormed<T, E>(t: seq<Signal<T, E>>) {
    forall i | 0 <= i < |t| - 1 :: !t[i].IsTerminal()
  }

  /** No signal of the trace is an error. */
  ghost predicate NoErrors<T, E>(t: seq<Signal<T, E>>) {
    forall i | 0 <= i < |t| :: !t[i].Error?
  }

  /** The trace with every `Completed` taken out. */
  function RemoveCompleted<T, E>(t: seq<Signal<T, E>>): seq<Signal<T, E>> {
    if t == [] then []
    else if t[0].Completed? then RemoveCompleted(t[1..])
    else [t[0]] + RemoveCompleted(t[1..])
  }

  /** The number of `Completed` signals in the trace. */
  function CountCompleted<T, E>(t: seq<Signal<T, E>>): nat {
    if t == [] then 0 else (if t[0].Completed? then 1 else 0) + CountCompleted(t[1..])
  }

  /** The payloads of the `Next` signals, in order. */
  function NextValues<T, E>(t: seq<Signal<T, E>>): seq<T> {
    if t == [] then []
    else if t[0].Next? then [t[0].value] + NextValues(t[1..])
    else NextValues(t[1..])
  }

  /** `f` applied to each element, the results concatenated. */
  function FlatMap<X, A>(f: X -> seq<A>, xs: seq<X>): seq<A> {
    if xs == [] then [] else f(xs[0]) + FlatMap(f, xs[1..])
  }

  /** `RemoveCompleted` leaves no `Completed`, drops exactly as many signals
      as there were completions, and introduces no error. */
  lemma {:induction false} RemoveCompletedSpec<T, E>(t: seq<Signal<T, E>>)
    ensures CountCompleted(RemoveCompleted(t)) == 0
    ensures |RemoveCompleted(t)| == |t| - CountCompleted(t)
    ensures forall i | 0 <= i < |RemoveCompleted(t)| :: !RemoveCompleted(t)[i].Completed?
    ensures NoErrors(t) ==> NoErrors(RemoveCompleted(t))
  {
    if t != [] {
      RemoveCompletedSpec(t[1..]);
    }
  }

  /** A trace in which every signal is a `Next`. */
  ghost predicate OnlyNexts<T, E>(t: seq<Signal<T, E>>) {
    forall i | 0 <= i < |t| :: t[i].Next?
  }

  /** Removing completions from an error-free trace leaves only `Next`s. */
  lemma {:induction false} RemoveCompletedOfNoErrors<T, E>(t: seq<Signal<T, E>>)
    requires NoErrors(t)
    ensures OnlyNexts(RemoveCompleted(t))
  {
    if t != [] {
      RemoveCompletedOfNoErrors(t[1..]);
    }
  }

  /** Counting completions distributes over concatenation. */
  lemma {:induction false} CountCompletedAppend<T, E>(a: seq<Signal<T, E>>, b: seq<Signal<T, E>>)
    ensures CountCompleted(a + b) == CountCompleted(a) + CountCompleted(b)
  {
    if a == [] {
      assert a + b == b;
    } else {
      assert (a + b)[1..] == a[1..] + b;
      CountCompletedAppend(a[1..], b);
    }
  }

  /** The payloads of a concatenation are the payloads of its parts. */
  lemma {:induction false} NextValuesAppend<T, E>(a: seq<Signal<T, E>>, b: seq<Signal<T, E>>)
    ensures NextValues(a + b) == NextValues(a) + NextValues(b)
  {
    if a == [] {
      assert a + b == b;
    } else {
      assert (a + b)[0] == a[0];
      assert (a + b)[1..] == a[1..] + b;
      NextValuesAppend(a[1..], b);
      if a[0].Next? {
        assert NextValues(a + b) == [a[0].value] + (NextValues(a[1..]) + NextValues(b));
      }
    }
  }

  /** Removing completions keeps every payload. */
  lemma {:induction false} NextValuesRemoveCompleted<T, E>(t: seq<Signal<T, E>>)
    ensures NextValues(RemoveCompleted(t)) == NextValues(t)
  {
    if t != [] {
      NextValuesRemoveCompleted(t[1..]);
      if !t[0].Completed? {
        NextValuesAppend([t[0]], RemoveCompleted(t[1..]));
      }
    }
  }

  /** `FlatMap` distributes over concatenation. */
  lemma {:induction false} FlatMapAppend<X, A>(f: X -> seq<A>, a: seq<X>, b: seq<X>)
    ensures FlatMap(f, a + b) == FlatMap(f, a) + FlatMap(f, b)
  {
    if a == [] {
      assert a + b == b;
    } else {
      assert (a + b)[1..] == a[1..] + b;
      FlatMapAppend(f, a[1..], b);
    }
  }

  /** A trace without terminals followed by a well-formed trace is
      well-formed. */
  lemma WellFormedAppend<T, E>(a: seq<Signal<T, E>>, b: seq<Signal<T, E>>)
    requires OnlyNexts(a) && WellFormed(b)
    ensures WellFormed(a + b)
  {
    forall i | 0 <= i < |a + b| - 1
      ensures !(a + b)[i].IsTerminal()
    {
      if i >= |a| {
        assert (a + b)[i] == b[i - |a|];
      }
    }
  }

  /** An error-free trace followed by an error-free trace is error-free. */
  lemma NoErrorsAppend<T, E>(a: seq<Signal<T, E>>, b: seq<Signal<T, E>>)
    requires NoErrors(a) && NoErrors(b)
    ensures NoErrors(a + b)
  {
    forall i | 0 <= i < |a + b|
      ensures !(a + b)[i].Error?
    {
      if i >= |a| {
        assert (a + b)[i] == b[i - |a|];
      }
    }
  }

  /** The number of terminal signals in the trace. */
  function CountTerminals<T, E>(t: seq<Signal<T, E>>): nat {
    if t == [] then 0 else (if t[0].IsTerminal() then 1 else 0) + CountTerminals(t[1..])
  }

  /** A well-formed trace holds at most one terminal signal, and when it holds
      one, that signal ends the trace. */
  lemma {:induction false} AtMostOneTerminal<T, E>(t: seq<Signal<T, E>>)
    requires WellFormed(t)
    ensures CountTerminals(t) <= 1
    ensures CountTerminals(t) == 1 ==> t[|t| - 1].IsTerminal()
  {
    if t != [] {
      assert WellFormed(t[1..]) by {
        forall i | 0 <= i < |t[1..]| - 1
          ensures !t[1..][i].IsTerminal()
        {
          assert t[1..][i] == t[i + 1];
        }
      }
      AtMostOneTerminal(t[1..]);
      if t[0].IsTerminal() {
        assert |t| == 1;
      }
    }
  }

  // A reference observer

  /** The observer that does nothing but write down what it receives. */
  function Recorder<T, E>(): Observer<T, E, Signal<T, E>> {
    Observer(x => [Next(x)], e => [Error(e)], [Completed])
  }

  /** What a recording observer holds after a delivery is the trace itself. */
  lemma {:induction false} RecorderRecords<T, E>(t: seq<Signal<T, E>>)
    ensures Deliver(Recorder(), t) == t
  {
    if t != [] {
      RecorderRecords(t[1..]);
    }
  }

  // tuple_observer and make_observer

  /** The callables a `tuple_observer` is built from: the `next` handler and,
      when given, the `error` and `completed` handlers. */
  datatype Callables<!T, !E, A> = Callables(next: T -> seq<A>, error: Maybe<E -> seq<A>>, completed: Maybe<seq<A>>)

  /** `empty_callable`: accepts any arguments and does nothing. */
  function IgnoreError<E, A>(e: E): seq<A> {
    []
  }

  /** `tuple_observer`: `send_next` calls the first callable; `send_error` and
      `send_completed` call the second and third if the tuple has them, and
      `empty_callable` otherwise (`callable_or_empty`). */
  function TupleObserver<T, E, A>(fs: Callables<T, E, A>): Observer<T, E, A> {
    Observer(fs.next, fs.error.OrDefault(IgnoreError), fs.completed.OrDefault([]))
  }

  /** `make_observer(f)`: a `next` handler only. */
  function MakeObserver1<T, E, A>(f: T -> seq<A>): Callables<T, E, A> {
    Callables(f, Nothing, Nothing)
  }

  /** `make_observer(f, g)`: `next` and `error` handlers. */
  function MakeObserver2<T, E, A>(f: T -> seq<A>, g: E -> seq<A>): Callables<T, E, A> {
    Callables(f, Just(g), Nothing)
  }

  /** `make_observer(f, g, h)`: all three handlers. */
  function MakeObserver3<T, E, A>(f: T -> seq<A>, g: E -> seq<A>, h: seq<A>): Callables<T, E, A> {
    Callables(f, Just(g), Just(h))
  }

  /** An observer built from one callable reacts to the `Next` payloads and
      to nothing else: errors and completions are no-ops. */
  lemma {:induction false} OneCallableObserver<T, E, A>(f: T -> seq<A>, t: seq<Signal<T, E>>)
    ensures Deliver(TupleObserver(MakeObserver1<T, E, A>(f)), t) == FlatMap(f, NextValues(t))
  {
    if t != [] {
      OneCallableObserver(f, t[1..]);
      var rest := NextValues(t[1..]);
      if t[0].Next? {
        assert NextValues(t) == [t[0].value] + rest;
        assert ([t[0].value] + rest)[1..] == rest;
      } else {
        assert NextValues(t) == rest;
        assert Send(TupleObserver(MakeObserver1<T, E, A>(f)), t[0]) == [];
      }
    }
  }

  /** An observer built from two callables ignores completions: it does the
      same with or without them. */
  lemma {:induction false} TwoCallableObserver<T, E, A>(f: T -> seq<A>, g: E -> seq<A>, t: seq<Signal<T, E>>)
    ensures Deliver(TupleObserver(MakeObserver2(f, g)), t) == Deliver(TupleObserver(MakeObserver2(f, g)), RemoveCompleted(t))
  {
    if t != [] {
      TwoCallableObserver(f, g, t[1..]);
    }
  }

  /** An observer built from three callables calls each of them on its own
      signal kind. */
  lemma ThreeCallableObserver<T, E, A>(f: T -> seq<A>, g: E -> seq<A>, h: seq<A>, x: T, e: E)
    ensures Send(TupleObserver(MakeObserver3(f, g, h)), Next(x)) == f(x)
    ensures Send(TupleObserver(MakeObserver3(f, g, h)), Error(e)) == g(e)
    ensures Send(TupleObserver(MakeObserver3(f, g, h)), Completed) == h
  {
  }

  // Wrapping observers

  /** `forwarding_observer`: each entry point calls the wrapped observer's. */
  function Forwarding<T, E, A>(s: Observer<T, E, A>): Observer<T, E, A> {
    Observer(x => s.onNext(x), e => s.onError(e), s.onCompleted)
  }

  /** A forwarding observer does exactly what the observer it wraps does. */
  lemma {:induction false} ForwardingForwards<T, E, A>(s: Observer<T, E, A>, t: seq<Signal<T, E>>)
    ensures Deliver(Forwarding(s), t) == Deliver(s, t)
  {
    if t != [] {
      ForwardingForwards(s, t[1..]);
    }
  }

  /** `uncompletable_observer`: a forwarding observer whose `send_completed`
      does nothing. */
  function Uncompletable<T, E, A>(s: Observer<T, E, A>): Observer<T, E, A> {
    Forwarding(s).(onCompleted := [])
  }

  /** An uncompletable observer acts on a trace as the wrapped observer acts
      on the same trace with its completions removed. */
  lemma {:induction false} UncompletableDropsCompleted<T, E, A>(s: Observer<T, E, A>, t: seq<Signal<T, E>>)
    ensures Deliver(Uncompletable(s), t) == Deliver(s, RemoveCompleted(t))
  {
    if t != [] {
      UncompletableDropsCompleted(s, t[1..]);
    }
  }

  /** `any_observer`: the wrapped observer behind one shared handle, each
      entry point a virtual call to the wrapped one (`model<O>`). Seen from
      its calls, that is a forwarding observer. */
  function AnyObserver<T, E, A>(o: Observer<T, E, A>): Observer<T, E, A> {
    Forwarding(o)
  }

  /** The type-erased observer passes each signal on unchanged. */
  lemma {:induction false} AnyObserverForwards<T, E, A>(o: Observer<T, E, A>, t: seq<Signal<T, E>>)
    ensures Deliver(AnyObserver(o), t) == Deliver(o, t)
  {
    ForwardingForwards(o, t);
  }
}
