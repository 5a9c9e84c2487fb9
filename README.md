# cxxrx core in Dafny

A verified model of the core of a small header-only C++ reactive-streams
library (namespace `windberry::rx`). It covers two headers:

- **`Maybe.h`**: an optional value. It is modelled as `datatype Maybe<T> = Nothing | Just(x: T)`
  with `isJust`, `isNothing`, `orDefault`, `cond`, `bind` and `map` as member functions, plus
  `findMaybe` (a map lookup) and `orConstructDefault` (returns the existing payload, or a newly
  allocated `T`).
- **`rx.h`**: the observer/observable protocol.
  - **Signals.** A signal is `Next(x)`, `Error(e)` or `Completed`.
  - **Observers.** An observer is its three handlers. Each handler is given by the effects one
    call performs. Pushing a trace of signals into an observer (`Deliver`) performs those
    effects in order.
  - **Cold observables.** Each cold observable pushes a finite trace, synchronously, into
    every observer that subscribes. So it is modelled by that trace.
  - **Sources and combinators.** The sources (`pure_observable`, `empty_observable`,
    `error_observable`, the default `observable()`) and the combinators (`map`, `bind`,
    `catch_to`, `any`) are functions on traces. The closure observers that the C++ builds
    (`bind_observer`, `catch_to_observer`, `any_observer`) are modelled too. For every
    observer, subscribing to the combined observable is proved to do the same as subscribing
    the source with the wrapping observer. The combinators are modelled on cold observables
    only, not on a `replay_subject`.
  - **Dispatch.** `deliver_with` and `subscribe_with` hand units of work to a dispatcher. The
    ordering results are proved for a FIFO queue dispatcher.
  - **`replay_subject`.** A class holding the event log, the attached observers and
    `final_event_type`. Its two delivery loops (`subscribe`, `add_event`) are verified
    against the invariant that every attached observer has been sent exactly the log, in
    order.

Files: `maybe.dfy` (module `Maybe`), `observers.dfy` (module `Observers`), `observables.dfy`
(module `Observables`), `dispatch.dfy` (module `Dispatch`), `replay_subject.dfy` (module
`ReplaySubjects`).

Terms used in the table:

- **Effects.** What an observer's handlers do is a sequence of effects of a type parameter
  `A`. The observer that only records the signals it receives is `Observers.Recorder`.
- **Well-formed.** A trace is well-formed (`Observers.WellFormed`) when it holds at most one
  `Error`/`Completed` and that signal is last. This is the protocol's terminal-once rule.
  Only the replay subject enforces it.

## Model

| member | source | states |
|---|---|---|
| `Maybe.JustAndNothing` | Maybe.h:5-20 | `Just(x)` is present and not absent; `Nothing` is absent and not present |
| `Maybe.IsNothingIsNotJust` | Maybe.h:19-20 | `isNothing` is always the negation of `isJust` |
| `Maybe.OrDefaultCases` | Maybe.h:22-23 | `Just(x).orDefault(y)` is `x`; `Nothing().orDefault(y)` is `y` |
| `Maybe.CondCases` | Maybe.h:30-33 | `Just(x).cond(f, g)` is `f(x)`; `Nothing().cond(f, g)` is `g()` |
| `Maybe.MapLaws` | Maybe.h:40-43 | `map` keeps `Nothing` and sends `Just(x)` to `Just(f(x))`; `map(id)` is the identity; `map(f).map(g)` is `map(g∘f)` |
| `Maybe.BindLaws` | Maybe.h:35-43 | `Nothing().bind(f)` is `Nothing`; `Just(x).bind(f)` is `f(x)`; `bind(Just)` is the identity; `bind` is associative; `map(h)` equals `bind` of `Just(h(x))` |
| `Maybe.Maybe.IsJust` | Maybe.h:19 | definition of `isJust`; specified by `Maybe.JustAndNothing` and `Maybe.IsNothingIsNotJust` |
| `Maybe.Maybe.IsNothing` | Maybe.h:20 | definition of `isNothing`; specified by `Maybe.JustAndNothing` and `Maybe.IsNothingIsNotJust` |
| `Maybe.Maybe.OrDefault` | Maybe.h:22 | definition of the by-value `orDefault`; specified by `Maybe.OrDefaultCases` |
| `Maybe.Maybe.Cond` | Maybe.h:30-33 | definition of `cond`; specified by `Maybe.CondCases` |
| `Maybe.Maybe.Bind` | Maybe.h:35-38 | definition of `bind`; specified by `Maybe.BindLaws` |
| `Maybe.Maybe.Map` | Maybe.h:40-43 | definition of `map`; specified by `Maybe.MapLaws` and `Maybe.BindLaws` |
| `Maybe.FindMaybe` | Maybe.h:49-57 | the result is present exactly when the key is in the map, and then it holds the mapped value |
| `Maybe.OrConstructDefault` | Maybe.h:25-28 | on `Just`, returns the payload object already stored (same reference, nothing allocated); on `Nothing`, returns a fresh object built from `args` |
| `Observers.Send` | rx.h:358-364 | definition of `event::send`: the handler matching the signal's kind is called with its payload; specified by `Observers.ThreeCallableObserver` and `Observers.ForwardingForwards` |
| `Observers.TupleObserver` | rx.h:52-63 | definition of `tuple_observer`, with `callable_or_empty`'s missing slots as no-ops; specified by `Observers.OneCallableObserver`, `Observers.TwoCallableObserver` and `Observers.ThreeCallableObserver` |
| `Observers.MakeObserver1` | rx.h:133-136 | definition of `make_observer(f)`; specified by `Observers.OneCallableObserver` |
| `Observers.MakeObserver2` | rx.h:137-141 | definition of `make_observer(f, g)`; specified by `Observers.TwoCallableObserver` |
| `Observers.MakeObserver3` | rx.h:142-146 | definition of `make_observer(f, g, h)`; specified by `Observers.ThreeCallableObserver` |
| `Observers.Forwarding` | rx.h:180-189 | definition of `forwarding_observer`; specified by `Observers.ForwardingForwards` |
| `Observers.Uncompletable` | rx.h:191-195 | definition of `uncompletable_observer`; specified by `Observers.UncompletableDropsCompleted` |
| `Observers.AnyObserver` | rx.h:65-98 | definition of `any_observer` (as a forwarding observer); specified by `Observers.AnyObserverForwards` |
| `Observers.OneCallableObserver` | rx.h:43-63 | a `tuple_observer` from one callable runs it on each `Next` payload in order; its error and completion handlers are no-ops |
| `Observers.TwoCallableObserver` | rx.h:43-63 | a `tuple_observer` from two callables acts the same whether or not completions are present: its completion handler is a no-op |
| `Observers.ThreeCallableObserver` | rx.h:52-63 | a `tuple_observer` from three callables calls the first on `next`, the second on `error`, the third on `completed` |
| `Observers.ForwardingForwards` | rx.h:180-189 | a `forwarding_observer` does exactly what the wrapped observer does, for every trace |
| `Observers.UncompletableDropsCompleted` | rx.h:191-195 | an `uncompletable_observer` acts on a trace as the wrapped observer acts on that trace with all completions removed |
| `Observers.RemoveCompletedSpec` | rx.h:191-195 | removing completions leaves no `Completed`; it removes exactly as many signals as there were completions; it never introduces an error |
| `Observers.AnyObserverForwards` | rx.h:65-98 | an `any_observer` passes every signal to the wrapped observer unchanged |
| `Observers.AtMostOneTerminal` | rx.h:371-377 | a well-formed trace holds at most one terminal signal; if it holds one, that signal is the last |
| `Observables.SubscribeCallables` | rx.h:320-323 | definition of the variadic `subscribe`: subscribing the `tuple_observer` made from the callables; specified by `Observables.SubscribeOneCallable` |
| `Observables.Default` | rx.h:307 | definition of the default `observable()`; specified by `Observables.DefaultDeliversNothing` |
| `Observables.Pure` | rx.h:156-162 | definition of `pure_observable`; specified by `Observables.PureDelivers` |
| `Observables.Empty` | rx.h:164-167 | definition of `empty_observable`; specified by `Observables.EmptyDelivers` |
| `Observables.Failed` | rx.h:169-172 | definition of `error_observable`; specified by `Observables.FailedDelivers` |
| `Observables.BindObserver` | rx.h:209-219 | definition of `bind_observer`; specified by `Observables.BindSubscribes` |
| `Observables.Bind` | rx.h:221-228 | definition of `bind` on traces; specified by `Observables.BindSubscribes`, `Observables.BindCompletions`, `Observables.BindValues` and `Observables.BindWellFormed` |
| `Observables.Map` | rx.h:202-207 | definition of `map` as `bind` of `pure_observable(f(x))`; specified by `Observables.MapPointwise`, `Observables.MapIdentity` and `Observables.MapCompose` |
| `Observables.CatchToObserver` | rx.h:230-237 | definition of `catch_to_observer`; specified by `Observables.CatchToSubscribes` |
| `Observables.CatchTo` | rx.h:239-248 | definition of `catch_to` on traces; specified by `Observables.CatchToSubscribes`, `Observables.CatchToRecovers` and `Observables.CatchToWithoutErrors` |
| `Observables.Any` | rx.h:287-291 | definition of `any`; specified by `Observables.AnySubscribes` |
| `Observables.SubscribeOneCallable` | rx.h:320-323 | subscribing with a single callable runs it on the values in order and ignores errors and completion |
| `Observables.DefaultDeliversNothing` | rx.h:307 | a default-constructed observable makes no call on its observer |
| `Observables.PureDelivers` | rx.h:156-162 | `pure_observable(x)` calls `send_next(x)` then `send_completed()`; its trace is well-formed and error-free |
| `Observables.EmptyDelivers` | rx.h:164-167 | `empty_observable()` calls only `send_completed()` |
| `Observables.FailedDelivers` | rx.h:169-172 | `error_observable(e)` calls only `send_error(e)` |
| `Observables.BindSubscribes` | rx.h:209-228 | for every observer `s`, subscribing `s` to `src.bind(f)` equals subscribing `src` with `bind_observer{s, f}`; on `next(x)` that observer subscribes `f(x)` with an `uncompletable_observer` around `s` |
| `Observables.BindCompletions` | rx.h:191-228 | `bind` has exactly as many completions as its source; every inner completion is suppressed |
| `Observables.BindValues` | rx.h:209-228 | the values of `src.bind(f)` are the values of `f(x)` for each source value `x`, concatenated in source order |
| `Observables.BindWellFormed` | rx.h:209-228 | a well-formed source bound to inner observables that never fail gives a well-formed result |
| `Observables.BindErrorThenCompleted` | rx_test.cc:55-72 | `pure(3).bind(x => error("boom"))` delivers `[Error boom, Completed]`: the inner error is forwarded and the outer completion still follows, so `bind` of two well-formed observables can break terminal-once |
| `Observables.BindExample` | rx_test.cc:32-53 | three 3s then completion, bound to `pure(x + 10)`, give three 13s and exactly one completion |
| `Observables.MapPointwise` | rx.h:202-207 | `map(f)` (defined as `bind` of `pure(f(x))`) delivers as many signals as the source, in order; each `Next(x)` becomes `Next(f(x))` and every other signal is unchanged |
| `Observables.MapIdentity` | rx.h:202-207 | `map` of the identity leaves an observable unchanged |
| `Observables.MapCompose` | rx.h:202-207 | `map(f)` then `map(g)` equals `map(g∘f)` |
| `Observables.MapWellFormed` | rx.h:202-207 | `map` keeps a well-formed stream well-formed |
| `Observables.MapExample` | rx_test.cc:16-30 | `pure(3).map(x * 2)` delivers `[Next 6, Completed]` |
| `Observables.CatchToSubscribes` | rx.h:230-248 | for every observer `s`, subscribing `s` to `src.catch_to(fb)` equals subscribing `src` with `catch_to_observer{s, fb}`; on an error that observer subscribes `s` to `fb` |
| `Observables.CatchToRecovers` | rx.h:230-248 | if the fallback never fails, no error reaches the observer |
| `Observables.CatchToWithoutErrors` | rx.h:230-248 | a source that never fails is unchanged by `catch_to` |
| `Observables.CatchToWellFormed` | rx.h:230-248 | with a well-formed source and a well-formed fallback, the result is well-formed |
| `Observables.CatchToExample` | rx_test.cc:74-90 | `error("boom").catch_to(error("splat")).catch_to(<7, complete>)` delivers `[Next 7, Completed]` with no error |
| `Observables.AnySubscribes` | rx.h:287-291 | subscribing `s` to `src.any()` equals subscribing `src` with `s` wrapped as an `any_observer`, so the trace is identical |
| `Dispatch.DeliverObserver` | rx.h:252-261 | definition of `deliver_observer`: each signal becomes one unit of work handed to the dispatcher; specified by `Dispatch.DeliverWithOnePerSignal` |
| `Dispatch.DeliverWith` | rx.h:250-265 | definition of `deliver_with`; specified by `Dispatch.DeliverWithOnlyDispatches` and `Dispatch.DeliverWithDrainReproduces` |
| `Dispatch.SubscribeWith` | rx.h:267-275 | definition of `subscribe_with`; specified by `Dispatch.SubscribeWithDefers` |
| `Dispatch.DeliverWithOnePerSignal` | rx.h:250-265 | `deliver_with` submits exactly one unit of work per source signal, in production order; item `i` sends signal `i` |
| `Dispatch.DeliverWithOnlyDispatches` | rx.h:250-265 | for any dispatcher, subscribing through `deliver_with` only hands the dispatcher those units of work, one call each, in order; nothing is delivered inline |
| `Dispatch.DeliverWithDrainReproduces` | rx.h:250-265 | running the queued work in submission order delivers to the observer exactly what subscribing directly would |
| `Dispatch.SubscribeWithDefers` | rx.h:267-275 | `subscribe_with` submits exactly one unit of work and delivers nothing before it runs; running it delivers the source's signals |
| `Dispatch.SubscribeWithInOrder` | rx.h:267-275 | two subscriptions through `subscribe_with` on one FIFO dispatcher deliver the first source in full before the second |
| `Dispatch.DeliverWithInOrder` | rx.h:250-265 | two subscriptions through `deliver_with` on one FIFO dispatcher deliver every signal of the first before any of the second |
| `ReplaySubjects.ReplaySubject.constructor` | rx.h:328 | a new subject has an empty log, no observers, and is open |
| `ReplaySubjects.ReplaySubject.Subscribe` | rx.h:330-336 | appends the observer at the end of the list; sends it the whole log in order; leaves the log and `final_event_type` unchanged; keeps the invariant that every attached observer has been sent exactly the log |
| `ReplaySubjects.ReplaySubject.AddEvent` | rx.h:374-382 | requires the subject to be open (the assert); sets `final_event_type` to the event's type; appends exactly that event; sends it to every attached observer in attachment order; keeps the invariant |
| `ReplaySubjects.ReplaySubject.SendNext` | rx.h:338 | requires the subject to be open; appends `Next(x)`; calls `send_next(x)` on every observer; the subject stays open |
| `ReplaySubjects.ReplaySubject.SendError` | rx.h:339 | requires the subject to be open; appends `Error(e)`; calls `send_error(e)` on every observer; the subject becomes errored |
| `ReplaySubjects.ReplaySubject.SendCompleted` | rx.h:340 | requires the subject to be open; appends `Completed`; calls `send_completed()` on every observer; the subject becomes completed |
| `ReplaySubjects.AppendToOpenLog` | rx.h:374-377 | appending any event to a well-formed log whose type is still `next` keeps it well-formed |
| `ReplaySubjects.ClosedLogEndsOnce` | rx.h:371-377 | once `final_event_type` is terminal, the log holds exactly one terminal event, and it is the last |
| `ReplaySubjects.ReplayScenario` | rx.h:330-382 | an observer attached before `send_next(1)`, `send_next(2)`, `send_completed()` and one attached after both receive exactly `[Next 1, Next 2, Completed]`; afterwards the subject is closed |

## Left out

- `deliver_on` / `subscribe_on` (rx.h:277-285) and `schedule_on`: their implementations are
  the platform specialisations in `rx_dispatch.h` (`dispatch_async`, `NSOperationQueue`).
  These are foreign calls, so `rx_dispatch.h` is not part of this model. Its `throttle`
  operator (a GCD timer) is left out as well. The dispatcher is an argument of
  `deliver_with`/`subscribe_with`. The FIFO queue (`Dispatch.Enqueue`, `Dispatch.Drain`)
  stands for an executor that runs work in submission order.
- `rx_throttle_progress.h` is not part of this model. It uses floating-point comparisons
  against a clock.
- `throw.h` is not part of this model. It only wraps a C++ `throw`.
- Compile-time machinery: `function_traits`, `disable_if_same_or_derived`, the dispatch in
  `callable_or_empty_`, and the `static_assert`s of `catch_to`. Dafny's type parameters
  enforce the same typing.
- `Observables.Bind`: the source and the inner observables share one error type `E`. The C++
  takes the result's error type from `f`, which only compiles when the two agree.
- Observers are modelled by the effects of their handlers. An observer that reads mutable
  state, calls back into the subject while being delivered to (re-entrancy), or runs
  concurrently is not modelled. The subject has no locking, and one logical caller is
  assumed.
- `shared_ptr` ownership and lifetime (`any_observer::p`, `replay_subject::st`) are not
  modelled. Neither is the fact that copies of an `any_observer` share one underlying
  observer. A subject is one Dafny object, and attaching the same observer twice gives two
  attachments.
- Combinators applied to a `replay_subject` are not modelled. `replay_subject` derives from
  `observable_methods` (rx.h:327), so `map`, `bind`, `catch_to`, `deliver_with`,
  `subscribe_with` and `any` also apply to a subject. Subscribing to such a result attaches the
  wrapping observer to the subject, which then feeds it every later live event. The model's
  combinators take only a fixed trace, and `ReplaySubjects.ReplaySubject` is not one.
- `ReplaySubjects.ReplaySubject.AddEvent`: its `requires finalEventType == NextType` stands for
  the `assert` at rx.h:375. In a build with `NDEBUG` that assert is compiled out. A send after
  the terminal event then overwrites `final_event_type`, and the event is logged and delivered
  to every observer. That behaviour is not modelled.
- A cold observable is modelled only when its on-subscribe action pushes a finite trace
  synchronously. Asynchronous or non-terminating producers built with `make_observable` are
  not modelled.
- All observers attached to one subject share one effect type `A`. In C++, `any_observer`
  erases the observer's type instead.
- `Maybe`:
  - The `T& orDefault(T&&)` overload returns a reference. The model returns the value.
  - In C++, `x` is an ordinary public member (Maybe.h:14) that `Maybe()` default-constructs
    (Maybe.h:16). A C++ `Nothing` therefore still carries a readable `x`: a default `T`, or an
    indeterminate value for scalars. `Nothing<T>()` also needs a default-constructible `T`.
    The model's `Nothing` has no payload, so reading `x` of a `Nothing` is not modelled.
  - In `orConstructDefault`, the payload's storage is a `Cell` object, so that "the address
    of the stored payload" can be compared by reference.
- `orNull`: `event::send` calls it (rx.h:360-361), but `Maybe.h` does not define it. The
  model's events are `Signal` values, and `event::send` reads the payload directly
  (`Observers.Send`).
- `unit` (rx.h:387) has no behaviour.
