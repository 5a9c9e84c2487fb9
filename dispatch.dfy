/** The scheduling combinators of rx.h, `deliver_with(f)` and
    `subscribe_with(f)`. Both hand zero-argument units of work to a
    dispatcher `f` instead of acting inline. A dispatcher is a function from
    a unit of work to what handing it over does (effects of type `B`); the
    one the ordering guarantees are stated for is the FIFO dispatcher, whose
    only effect is to append the work to its queue, and which later runs the
    queue in submission order. */
module Dispatch {
  import opened Observers
  import opened Observables

  /** A unit of work: one of the two closures the combinators build. */
  datatype Work<!T, !E, A> =
      /** `[s, x]{ s.send_next(x); }` and its error and completion twins. */
    | SendSignal(target: Observer<T, E, A>, signal: Signal<T, E>)
      /** `[s, me]{ me.subscribe(s); }`. */
    | SubscribeSource(source: Observable<T, E>, target: Observer<T, E, A>)

  /** Running one unit of work. */
  function Run<T, E, A>(w: Work<T, E, A>): seq<A> {
    match w
    case SendSignal(s, sig) => Send(s, sig)
    case SubscribeSource(src, s) => src.Subscribe(s)
  }

  /** The FIFO dispatcher's `schedule`: the work joins the end of the queue. */
  function Enqueue<T, E, A>(w: Work<T, E, A>): seq<Work<T, E, A>> {
    [w]
  }

  /** Running every queued unit of work, first submitted first. */
  function Drain<T, E, A>(q: seq<Work<T, E, A>>): seq<A> {
    if q == [] then [] else Run(q[0]) + Drain(q[1..])
  }

  // deliver_with

  /** `deliver_observer`: each signal becomes one unit of work that sends it
      to `s` (kept as an `any_observer`), handed to `f`. */
  function DeliverObserver<T, E, A, B>(f: Work<T, E, A> -> seq<B>, s: Observer<T, E, A>): Observer<T, E, B> {
    Observer(x => f(SendSignal(AnyObserver(s), Next(x))),
             e => f(SendSignal(AnyObserver(s), Error(e))),
             f(SendSignal(AnyObserver(s), Completed)))
  }

  /** Subscribing `s` to `src.deliver_with(f)`: the source is subscribed with
      a `deliver_observer`, so everything that happens is done by `f`. */
  function DeliverWith<T, E, A, B>(src: Observable<T, E>, f: Work<T, E, A> -> seq<B>, s: Observer<T, E, A>): seq<B> {
    src.Subscribe(DeliverObserver(f, s))
  }

  /** The queue a FIFO dispatcher holds after `deliver_with` subscribes. */
  function DeliverQueue<T, E, A>(src: Observable<T, E>, s: Observer<T, E, A>): seq<Work<T, E, A>> {
    DeliverWith(src, Enqueue, s)
  }

  /** Each signal into a `deliver_observer` is one call of the dispatcher. */
  lemma DeliverObserverSend<T, E, A, B>(f: Work<T, E, A> -> seq<B>, s: Observer<T, E, A>, sig: Signal<T, E>)
    ensures Send(DeliverObserver(f, s), sig) == f(SendSignal(AnyObserver(s), sig))
  {
    match sig
    case Next(x) =>
    case Error(e) =>
    case Completed =>
  }

  lemma {:induction false} DeliverQueueOfTrace<T, E, A>(t: seq<Signal<T, E>>, s: Observer<T, E, A>)
    ensures |Deliver(DeliverObserver(Enqueue, s), t)| == |t|
    ensures forall i | 0 <= i < |t| :: Deliver(DeliverObserver(Enqueue, s), t)[i] == SendSignal(AnyObserver(s), t[i])
  {
    if t != [] {
      DeliverQueueOfTrace(t[1..], s);
      var o := DeliverObserver(Enqueue, s);
      DeliverObserverSend(Enqueue, s, t[0]);
      var q := Deliver(o, t);
      forall i | 0 <= i < |t|
        ensures q[i] == SendSignal(AnyObserver(s), t[i])
      {
        if i > 0 {
          assert q[i] == Deliver(o, t[1..])[i - 1];
        }
      }
    }
  }

  /** `deliver_with` submits exactly one unit of work per source signal, in
      the order the source produced them, each sending that signal. */
  lemma DeliverWithOnePerSignal<T, E, A>(src: Observable<T, E>, s: Observer<T, E, A>)
    ensures |DeliverQueue(src, s)| == |src.trace|
    ensures forall i | 0 <= i < |src.trace| :: DeliverQueue(src, s)[i] == SendSignal(AnyObserver(s), src.trace[i])
  {
    DeliverQueueOfTrace(src.trace, s);
  }

  lemma {:induction false} DeliverWithAnyOfTrace<T, E, A, B>(t: seq<Signal<T, E>>, f: Work<T, E, A> -> seq<B>, s: Observer<T, E, A>)
    ensures Deliver(DeliverObserver(f, s), t) == FlatMap(f, Deliver(DeliverObserver(Enqueue, s), t))
  {
    if t != [] {
      DeliverWithAnyOfTrace(t[1..], f, s);
      var w := SendSignal(AnyObserver(s), t[0]);
      var rest := Deliver(DeliverObserver(Enqueue, s), t[1..]);
      DeliverObserverSend(Enqueue, s, t[0]);
      DeliverObserverSend(f, s, t[0]);
      assert Deliver(DeliverObserver(Enqueue, s), t) == [w] + rest;
      assert ([w] + rest)[1..] == rest;
    }
  }

  /** Whatever the dispatcher, subscribing through `deliver_with` does
      nothing but hand it the FIFO queue's units of work, one call each, in
      order: nothing is delivered inline. */
  lemma DeliverWithOnlyDispatches<T, E, A, B>(src: Observable<T, E>, f: Work<T, E, A> -> seq<B>, s: Observer<T, E, A>)
    ensures DeliverWith(src, f, s) == FlatMap(f, DeliverQueue(src, s))
  {
    DeliverWithAnyOfTrace(src.trace, f, s);
  }

  lemma {:induction false} DrainSends<T, E, A>(t: seq<Signal<T, E>>, s: Observer<T, E, A>)
    ensures Drain(Deliver(DeliverObserver(Enqueue, s), t)) == Deliver(s, t)
  {
    if t != [] {
      DrainSends(t[1..], s);
      var w := SendSignal(AnyObserver(s), t[0]);
      var rest := Deliver(DeliverObserver(Enqueue, s), t[1..]);
      DeliverObserverSend(Enqueue, s, t[0]);
      assert Deliver(DeliverObserver(Enqueue, s), t) == [w] + rest;
      assert ([w] + rest)[1..] == rest;
      assert Run(w) == Send(s, t[0]);
    }
  }

  /** Running the queued work in submission order delivers to `s` exactly
      what subscribing to the source directly would. */
  lemma DeliverWithDrainReproduces<T, E, A>(src: Observable<T, E>, s: Observer<T, E, A>)
    ensures Drain(DeliverQueue(src, s)) == src.Subscribe(s)
  {
    DrainSends(src.trace, s);
  }

  // subscribe_with

  /** Subscribing `s` to `src.subscribe_with(f)`: the subscription itself is
      one unit of work handed to `f`. */
  function SubscribeWith<T, E, A, B>(src: Observable<T, E>, f: Work<T, E, A> -> seq<B>, s: Observer<T, E, A>): seq<B> {
    f(SubscribeSource(src, s))
  }

  /** `subscribe_with` hands over exactly one unit of work and delivers
      nothing until it runs; running it delivers the source's signals. */
  lemma SubscribeWithDefers<T, E, A>(src: Observable<T, E>, s: Observer<T, E, A>)
    ensures |SubscribeWith(src, Enqueue, s)| == 1
    ensures Drain(SubscribeWith(src, Enqueue, s)) == src.Subscribe(s)
  {
    var q := SubscribeWith(src, Enqueue, s);
    assert q[1..] == [];
    assert Drain(q) == src.Subscribe(s) + [];
  }

  /** Draining two queues one after the other is draining their
      concatenation: work submitted later runs later. */
  lemma {:induction false} DrainAppend<T, E, A>(p: seq<Work<T, E, A>>, q: seq<Work<T, E, A>>)
    ensures Drain(p + q) == Drain(p) + Drain(q)
  {
    if p == [] {
      assert p + q == q;
    } else {
      assert (p + q)[1..] == p[1..] + q;
      DrainAppend(p[1..], q);
    }
  }

  /** Two subscriptions through `subscribe_with` on one FIFO dispatcher run
      in the order they were made: the first source is delivered in full
      before the second begins. */
  lemma SubscribeWithInOrder<T, E, A>(a: Observable<T, E>, s: Observer<T, E, A>, b: Observable<T, E>, s': Observer<T, E, A>)
    ensures Drain(SubscribeWith(a, Enqueue, s) + SubscribeWith(b, Enqueue, s')) == a.Subscribe(s) + b.Subscribe(s')
  {
    DrainAppend(SubscribeWith(a, Enqueue, s), SubscribeWith(b, Enqueue, s'));
    SubscribeWithDefers(a, s);
    SubscribeWithDefers(b, s');
  }

  /** Two subscriptions through `deliver_with` on one FIFO dispatcher: every
      signal of the first is delivered before any signal of the second. */
  lemma DeliverWithInOrder<T, E, A>(a: Observable<T, E>, s: Observer<T, E, A>, b: Observable<T, E>, s': Observer<T, E, A>)
    ensures Drain(DeliverQueue(a, s) + DeliverQueue(b, s')) == a.Subscribe(s) + b.Subscribe(s')
  {
    DrainAppend(DeliverQueue(a, s), DeliverQueue(b, s'));
    DeliverWithDrainReproduces(a, s);
    DeliverWithDrainReproduces(b, s');
  }
}
