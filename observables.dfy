/** Cold observables of rx.h and their combinators (`observable_methods`).

    Every cold observable here runs its on-subscribe action synchronously
    and pushes a fixed, finite sequence of signals into the observer it is
    given, so it is modelled by that trace: subscribing an observer is
    delivering the trace to it. Each combinator is defined on traces, and a
    lemma shows that subscribing to the combined observable does what the
    C++ closure does: subscribe the source with the combinator's own
    wrapping observer (`bind_observer`, `catch_to_observer`,
    `any_observer`). */
module Observables {
  import opened Observers

  /** A cold observable, by the signals it delivers on each subscription. */
  datatype Observable<T, E> = Observable(trace: seq<Signal<T, E>>) {
    /** `subscribe(o)`: the on-subscribe action, run once per call. */
    function Subscribe<A>(o: Observer<T, E, A>): seq<A> {
      Deliver(o, trace)
    }
  }

  /** `subscribe(f, g, h)`: subscribing with bare callables builds a
      `tuple_observer` from them. */
  function SubscribeCallables<T, E, A>(src: Observable<T, E>, fs: Callables<T, E, A>): seq<A> {
    src.Subscribe(TupleObserver(fs))
  }

  /** Subscribing with a single callable runs it on each value in order and
      ignores errors and completion. */
  lemma SubscribeOneCallable<T, E, A>(src: Observable<T, E>, f: T -> seq<A>)
    ensures SubscribeCallables(src, MakeObserver1(f)) == FlatMap(f, NextValues(src.trace))
  {
    OneCallableObserver(f, src.trace);
  }

  // Sources

  /** `observable()`: the default on-subscribe action does nothing. */
  function Default<T, E>(): Observable<T, E> {
    Observable([])
  }

  /** `pure_observable(x)`. */
  function Pure<T, E>(x: T): Observable<T, E> {
    Observable([Next(x), Completed])
  }

  /** `empty_observable()`. */
  function Empty<T, E>(): Observable<T, E> {
    Observable([Completed])
  }

  /** `error_observable(e)`. */
  function Failed<T, E>(e: E): Observable<T, E> {
    Observable([Error(e)])
  }

  /** A default-constructed observable calls nothing on its observer. */
  lemma DefaultDeliversNothing<T, E, A>(o: Observer<T, E, A>)
    ensures Default<T, E>().Subscribe(o) == []
  {
  }

  /** `pure_observable(x)` calls `send_next(x)` and then `send_completed()`. */
  lemma PureDelivers<T, E, A>(x: T, o: Observer<T, E, A>)
    ensures Pure<T, E>(x).Subscribe(o) == o.onNext(x) + o.onCompleted
    ensures WellFormed(Pure<T, E>(x).trace) && NoErrors(Pure<T, E>(x).trace)
  {
    assert Pure<T, E>(x).trace == [Next(x)] + [Completed];
    DeliverAppend(o, [Next(x)], [Completed]);
    DeliverSingle(o, Next(x));
    DeliverSingle(o, Completed);
  }

  /** `empty_observable()` calls only `send_completed()`. */
  lemma EmptyDelivers<T, E, A>(o: Observer<T, E, A>)
    ensures Empty<T, E>().Subscribe(o) == o.onCompleted
  {
    DeliverSingle(o, Completed);
  }

  /** `error_observable(e)` calls only `send_error(e)`. */
  lemma FailedDelivers<T, E, A>(e: E, o: Observer<T, E, A>)
    ensures Failed<T, E>(e).Subscribe(o) == o.onError(e)
  {
    DeliverSingle(o, Error(e));
  }

  // bind

  /** What one source signal becomes downstream of `bind(f)`: a `next(x)`
      becomes the signals of `f(x)` without its completions; a source error
      or completion is passed on as it is. */
  function BindSignal<T, U, E>(s: Signal<T, E>, f: T -> Observable<U, E>): seq<Signal<U, E>> {
    match s
    case Next(x) => RemoveCompleted(f(x).trace)
    case Error(e) => [Error(e)]
    case Completed => [Completed]
  }

  function BindTrace<T, U, E>(t: seq<Signal<T, E>>, f: T -> Observable<U, E>): seq<Signal<U, E>> {
    if t == [] then [] else BindSignal(t[0], f) + BindTrace(t[1..], f)
  }

  /** `bind(f)`: each source value is replaced by the inner observable `f(x)`,
      spliced in with its own completion suppressed. */
  function Bind<T, U, E>(src: Observable<T, E>, f: T -> Observable<U, E>): Observable<U, E> {
    Observable(BindTrace(src.trace, f))
  }

  /** `bind_observer`: forwards errors and completion to `s`; on `next(x)`
      subscribes `f(x)` with an `uncompletable_observer` around `s`. */
  function BindObserver<T, U, E, A>(s: Observer<U, E, A>, f: T -> Observable<U, E>): Observer<T, E, A> {
    Observer(x => f(x).Subscribe(Uncompletable(s)), e => s.onError(e), s.onCompleted)
  }

  lemma {:induction false} BindTraceDelivers<T, U, E, A>(t: seq<Signal<T, E>>, f: T -> Observable<U, E>, s: Observer<U, E, A>)
    ensures Deliver(s, BindTrace(t, f)) == Deliver(BindObserver(s, f), t)
  {
    if t != [] {
      BindTraceDelivers(t[1..], f, s);
      DeliverAppend(s, BindSignal(t[0], f), BindTrace(t[1..], f));
      match t[0]
      case Next(x) => UncompletableDropsCompleted(s, f(x).trace);
      case Error(e) =>
      case Completed =>
    }
  }

  /** Subscribing `s` to `src.bind(f)` is subscribing the source with a
      `bind_observer` around `s`. */
  lemma BindSubscribes<T, U, E, A>(src: Observable<T, E>, f: T -> Observable<U, E>, s: Observer<U, E, A>)
    ensures Bind(src, f).Subscribe(s) == src.Subscribe(BindObserver(s, f))
  {
    BindTraceDelivers(src.trace, f, s);
  }

  /** The completions of `src.bind(f)` are exactly those of the source: the
      inner observables' completions never get through. */
  lemma {:induction false} BindCompletions<T, U, E>(src: Observable<T, E>, f: T -> Observable<U, E>)
    ensures CountCompleted(Bind(src, f).trace) == CountCompleted(src.trace)
    decreases |src.trace|
  {
    var t := src.trace;
    if t != [] {
      BindCompletions(Observable(t[1..]), f);
      CountCompletedAppend(BindSignal(t[0], f), BindTrace(t[1..], f));
      if t[0].Next? {
        RemoveCompletedSpec(f(t[0].value).trace);
      }
    }
  }

  /** The values of `src.bind(f)` are the values of the inner observables,
      one inner observable per source value, in source order. */
  lemma {:induction false} BindValues<T, U, E>(src: Observable<T, E>, f: T -> Observable<U, E>)
    ensures NextValues(Bind(src, f).trace) == FlatMap(x => NextValues(f(x).trace), NextValues(src.trace))
    decreases |src.trace|
  {
    var t := src.trace;
    var g := x => NextValues(f(x).trace);
    if t != [] {
      BindValues(Observable(t[1..]), f);
      NextValuesAppend(BindSignal(t[0], f), BindTrace(t[1..], f));
      if t[0].Next? {
        NextValuesRemoveCompleted(f(t[0].value).trace);
        assert NextValues(t) == [t[0].value] + NextValues(t[1..]);
        FlatMapAppend(g, [t[0].value], NextValues(t[1..]));
      }
    }
  }

  /** `bind` keeps the stream well-formed when no inner observable can fail:
      a well-formed source gives a well-formed result. */
  lemma {:induction false} BindWellFormed<T, U, E>(src: Observable<T, E>, f: T -> Observable<U, E>)
    requires WellFormed(src.trace)
    requires forall x :: NoErrors(f(x).trace)
    ensures WellFormed(Bind(src, f).trace)
    decreases |src.trace|
  {
    var t := src.trace;
    if t != [] {
      if t[0].Next? {
        BindWellFormed(Observable(t[1..]), f);
        RemoveCompletedSpec(f(t[0].value).trace);
        RemoveCompletedOfNoErrors(f(t[0].value).trace);
        WellFormedAppend(BindSignal(t[0], f), BindTrace(t[1..], f));
      } else {
        assert t == [t[0]];
        assert BindTrace(t, f) == BindSignal(t[0], f);
      }
    }
  }

  /** The case of the open question in the tests: an inner error is
      forwarded, and the outer completion that follows is not suppressed, so
      `pure(3).bind(x => error("boom"))` delivers an error and then a
      completion, although both observables are well-formed. */
  lemma BindErrorThenCompleted()
    ensures Bind(Pure<int, string>(3), x => Failed<int, string>("boom")).trace == [Error("boom"), Completed]
    ensures WellFormed(Pure<int, string>(3).trace) && WellFormed(Failed<int, string>("boom").trace)
    ensures !WellFormed(Bind(Pure<int, string>(3), x => Failed<int, string>("boom")).trace)
  {
    var f := (x: int) => Failed<int, string>("boom");
    var t := Pure<int, string>(3).trace;
    assert RemoveCompleted(f(3).trace) == [Error("boom")];
    assert BindTrace(t[1..], f) == [Completed];
    assert BindTrace(t, f) == [Error("boom")] + [Completed];
    assert BindTrace(t, f)[0].IsTerminal();
  }

  /** Three values bound to `pure(x + 10)` give three 13s and one
      completion. */
  lemma BindExample()
    ensures Bind(Observable<int, string>.Observable([Next(3), Next(3), Next(3), Completed]), x => Pure(x + 10)).trace
            == [Next(13), Next(13), Next(13), Completed]
  {
    var f := (x: int) => Pure<int, string>(x + 10);
    var t: seq<Signal<int, string>> := [Next(3), Next(3), Next(3), Completed];
    assert RemoveCompleted(f(3).trace) == [Next(13)];
    assert BindTrace(t[3..], f) == [Completed];
    assert t[2..][1..] == t[3..];
    assert BindTrace(t[2..], f) == [Next(13), Completed];
    assert t[1..][1..] == t[2..];
    assert BindTrace(t[1..], f) == [Next(13), Next(13), Completed];
  }

  // map

  /** `map(f)` is `bind` of `pure(f(x))`. */
  function Map<T, U, E>(src: Observable<T, E>, f: T -> U): Observable<U, E> {
    Bind(src, x => Pure(f(x)))
  }

  /** One signal under `map(f)`: a value is transformed, anything else kept. */
  function MapSignal<T, U, E>(s: Signal<T, E>, f: T -> U): Signal<U, E> {
    match s
    case Next(x) => Next(f(x))
    case Error(e) => Error(e)
    case Completed => Completed
  }

  /** `map(f)` delivers as many signals as the source, in the same order,
      each value `x` replaced by `f(x)` and nothing else changed. */
  lemma {:induction false} MapPointwise<T, U, E>(src: Observable<T, E>, f: T -> U)
    ensures |Map(src, f).trace| == |src.trace|
    ensures forall i | 0 <= i < |src.trace| :: Map(src, f).trace[i] == MapSignal(src.trace[i], f)
    decreases |src.trace|
  {
    var t := src.trace;
    var g := x => Pure<U, E>(f(x));
    if t != [] {
      MapPointwise(Observable(t[1..]), f);
      if t[0].Next? {
        var p := Pure<U, E>(f(t[0].value)).trace;
        assert p[1..] == [Completed] && p[1..][1..] == [];
        assert RemoveCompleted(p[1..]) == [];
        assert RemoveCompleted(p) == [Next(f(t[0].value))] + [];
      }
      assert BindSignal(t[0], g) == [MapSignal(t[0], f)];
      var r := BindTrace(t, g);
      assert r == [MapSignal(t[0], f)] + BindTrace(t[1..], g);
      forall i | 0 <= i < |t|
        ensures r[i] == MapSignal(t[i], f)
      {
        if i > 0 {
          assert r[i] == BindTrace(t[1..], g)[i - 1];
        }
      }
    }
  }

  /** `map` of the identity leaves an observable unchanged. */
  lemma MapIdentity<T, E>(src: Observable<T, E>)
    ensures Map(src, x => x) == src
  {
    MapPointwise(src, x => x);
    assert Map(src, x => x).trace == src.trace;
  }

  /** Mapping twice is mapping once by the composition. */
  lemma MapCompose<T, U, V, E>(src: Observable<T, E>, f: T -> U, g: U -> V)
    ensures Map(Map(src, f), g) == Map(src, x => g(f(x)))
  {
    MapPointwise(src, f);
    MapPointwise(Map(src, f), g);
    MapPointwise(src, x => g(f(x)));
    assert Map(Map(src, f), g).trace == Map(src, x => g(f(x))).trace;
  }

  /** `map` keeps every signal's kind, so it keeps a well-formed stream
      well-formed. */
  lemma MapWellFormed<T, U, E>(src: Observable<T, E>, f: T -> U)
    requires WellFormed(src.trace)
    ensures WellFormed(Map(src, f).trace)
  {
    MapPointwise(src, f);
  }

  /** `pure(3).map(x * 2)` delivers 6 and completes. */
  lemma MapExample()
    ensures Map(Pure<int, string>(3), x => x * 2).trace == [Next(6), Completed]
  {
    MapPointwise(Pure<int, string>(3), x => x * 2);
  }

  // catch_to

  /** One signal under `catch_to(fb)`: an error is replaced by everything
      the fallback delivers; anything else is kept. */
  function CatchSignal<T, E>(s: Signal<T, E>, fb: Observable<T, E>): seq<Signal<T, E>> {
    if s.Error? then fb.trace else [s]
  }

  function CatchTrace<T, E>(t: seq<Signal<T, E>>, fb: Observable<T, E>): seq<Signal<T, E>> {
    if t == [] then [] else CatchSignal(t[0], fb) + CatchTrace(t[1..], fb)
  }

  /** `catch_to(fb)`: on a source error, switch the same observer over to
      the fallback. */
  function CatchTo<T, E>(src: Observable<T, E>, fb: Observable<T, E>): Observable<T, E> {
    Observable(CatchTrace(src.trace, fb))
  }

  /** `catch_to_observer`: forwards `next` and `completed` to `s`; on an error
      it discards it and subscribes `s` to the fallback. */
  function CatchToObserver<T, E, A>(s: Observer<T, E, A>, fb: Observable<T, E>): Observer<T, E, A> {
    Observer(x => s.onNext(x), e => fb.Subscribe(s), s.onCompleted)
  }

  lemma {:induction false} CatchTraceDelivers<T, E, A>(t: seq<Signal<T, E>>, fb: Observable<T, E>, s: Observer<T, E, A>)
    ensures Deliver(s, CatchTrace(t, fb)) == Deliver(CatchToObserver(s, fb), t)
  {
    if t != [] {
      CatchTraceDelivers(t[1..], fb, s);
      DeliverAppend(s, CatchSignal(t[0], fb), CatchTrace(t[1..], fb));
    }
  }

  /** Subscribing `s` to `src.catch_to(fb)` is subscribing the source with a
      `catch_to_observer` around `s`. */
  lemma CatchToSubscribes<T, E, A>(src: Observable<T, E>, fb: Observable<T, E>, s: Observer<T, E, A>)
    ensures CatchTo(src, fb).Subscribe(s) == src.Subscribe(CatchToObserver(s, fb))
  {
    CatchTraceDelivers(src.trace, fb, s);
  }

  /** With a fallback that cannot fail, no error reaches the observer. */
  lemma {:induction false} CatchToRecovers<T, E>(src: Observable<T, E>, fb: Observable<T, E>)
    requires NoErrors(fb.trace)
    ensures NoErrors(CatchTo(src, fb).trace)
    decreases |src.trace|
  {
    var t := src.trace;
    if t != [] {
      CatchToRecovers(Observable(t[1..]), fb);
      NoErrorsAppend(CatchSignal(t[0], fb), CatchTrace(t[1..], fb));
    }
  }

  /** A source that never fails is not changed by `catch_to`. */
  lemma {:induction false} CatchToWithoutErrors<T, E>(src: Observable<T, E>, fb: Observable<T, E>)
    requires NoErrors(src.trace)
    ensures CatchTo(src, fb) == src
    decreases |src.trace|
  {
    var t := src.trace;
    if t != [] {
      assert !t[0].Error?;
      CatchToWithoutErrors(Observable(t[1..]), fb);
      assert t == [t[0]] + t[1..];
    }
  }

  /** A well-formed source with a well-formed fallback stays well-formed. */
  lemma {:induction false} CatchToWellFormed<T, E>(src: Observable<T, E>, fb: Observable<T, E>)
    requires WellFormed(src.trace) && WellFormed(fb.trace)
    ensures WellFormed(CatchTo(src, fb).trace)
    decreases |src.trace|
  {
    var t := src.trace;
    if t != [] {
      if t[0].Next? {
        CatchToWellFormed(Observable(t[1..]), fb);
        WellFormedAppend([t[0]], CatchTrace(t[1..], fb));
      } else {
        assert t == [t[0]];
        assert CatchTrace(t, fb) == CatchSignal(t[0], fb);
      }
    }
  }

  /** `error("boom").catch_to(error("splat")).catch_to(<7, then complete>)`
      delivers 7, completes, and never fails. */
  lemma CatchToExample()
    ensures CatchTo(CatchTo(Failed<int, string>("boom"), Failed("splat")), Observable([Next(7), Completed])).trace
            == [Next(7), Completed]
  {
    var inner := CatchTo(Failed<int, string>("boom"), Failed("splat"));
    assert inner.trace == [Error("splat")];
    var fb: Observable<int, string> := Observable([Next(7), Completed]);
    assert CatchTrace(inner.trace, fb) == fb.trace + [];
  }

  // any

  /** `any()`: the same on-subscribe action behind a type-erased handle. */
  function Any<T, E>(src: Observable<T, E>): Observable<T, E> {
    src
  }

  /** Subscribing `s` to `src.any()` subscribes the source with `s` wrapped
      as an `any_observer`, and `s` sees what it would see from `src`. */
  lemma AnySubscribes<T, E, A>(src: Observable<T, E>, s: Observer<T, E, A>)
    ensures Any(src).Subscribe(s) == src.Subscribe(AnyObserver(s))
  {
    AnyObserverForwards(s, src.trace);
  }
}
