/** The optional value of Maybe.h: either no payload (`Nothing`) or exactly
    one payload (`Just(x)`). The C++ class keeps a `hasValue` flag beside an
    ordinary public member `T x`, which `Maybe()` default-constructs, so a
    C++ `Nothing` still carries a readable (default or indeterminate) `x`.
    Every operation here consults `x` only when the flag is set, and the
    model's `Nothing` carries no payload at all. */
module Maybe {

  datatype Maybe<T> = Nothing | Just(x: T) {

    /** `isJust`: the payload is present. */
    predicate IsJust() {
      Just?
    }

    /** `isNothing`: the payload is absent. */
    predicate IsNothing() {
      Nothing?
    }

    /** `orDefault(y)`: the payload if present, otherwise the fallback `y`. */
    function OrDefault(y: T): T {
      if Just? then x else y
    }

    /** `cond(f, g)`: `f` applied to the payload, or `g()` when absent. */
    function Cond<R>(f: T -> R, g: () -> R): R {
      if Just? then f(x) else g()
    }

    /** `bind(f)`: chain with a function that may itself give nothing. */
    function Bind<U>(f: T -> Maybe<U>): Maybe<U> {
      if Just? then f(x) else Nothing
    }

    /** `map(f)`: transform the payload, keeping absence. */
    function Map<U>(f: T -> U): Maybe<U> {
      if Just? then Just(f(x)) else Nothing
    }
  }

  /** `findMaybe(m, k)`: one lookup of `k` in the map `m`. */
  function FindMaybe<K, V>(m: map<K, V>, k: K): (r: Maybe<V>)
    ensures r.IsJust() <==> k in m
    ensures r.IsJust() ==> r.x == m[k]
  {
    if k !in m then Nothing else Just(m[k])
  }

  /** A heap cell holding a `T`: the storage a `T*` points to. */
  class Cell<T> {
    var value: T

    constructor (v: T)
      ensures value == v
    {
      value := v;
    }
  }

  /** `orConstructDefault(args...)`: on `Just`, the address of the payload that
      is already stored (the payload slot is the cell `m.x`), allocating
      nothing; on `Nothing`, a newly allocated `T` built from `args` by `T`'s
      constructor `make`. The caller owns the new object. */
  method OrConstructDefault<T, Args>(m: Maybe<Cell<T>>, make: Args -> T, args: Args) returns (p: Cell<T>)
    ensures m.IsJust() ==> p == m.x
    ensures m.IsNothing() ==> fresh(p) && p.value == make(args)
  {
    if m.IsJust() {
      p := m.x;
    } else {
      p := new Cell(make(args));
    }
  }

  // Laws of the container

  /** `Just(x)` is present and `Nothing()` is absent. */
  lemma JustAndNothing<T>(x: T)
    ensures Just(x).IsJust() && !Just(x).IsNothing()
    ensures Maybe<T>.Nothing.IsNothing() && !Maybe<T>.Nothing.IsJust()
  {
  }

  /** `isJust` and `isNothing` always disagree. */
  lemma IsNothingIsNotJust<T>(m: Maybe<T>)
    ensures m.IsNothing() <==> !m.IsJust()
  {
  }

  /** `orDefault` yields the payload when there is one, else the fallback. */
  lemma OrDefaultCases<T>(x: T, y: T)
    ensures Just(x).OrDefault(y) == x
    ensures Nothing().OrDefault(y) == y
  {
  }

  /** `cond(f, g)` runs `f` on a present payload and `g` otherwise. */
  lemma CondCases<T, R>(x: T, f: T -> R, g: () -> R)
    ensures Just(x).Cond(f, g) == f(x)
    ensures Nothing().Cond(f, g) == g()
  {
  }

  /** Functor laws for `map`. */
  lemma MapLaws<T, U, V>(m: Maybe<T>, x: T, f: T -> U, g: U -> V)
    ensures Maybe<T>.Nothing.Map(f) == Nothing
    ensures Just(x).Map(f) == Just(f(x))
    ensures m.Map(y => y) == m
    ensures m.Map(f).Map(g) == m.Map(y => g(f(y)))
  {
  }

  /** Monad laws for `bind`, with `Just` as the unit, and `map` as `bind`
      followed by `Just`. */
  lemma BindLaws<T, U, V>(m: Maybe<T>, x: T, f: T -> Maybe<U>, g: U -> Maybe<V>, h: T -> U)
    ensures Maybe<T>.Nothing.Bind(f) == Nothing
    ensures Just(x).Bind(f) == f(x)
    ensures m.Bind(y => Just(y)) == m
    ensures m.Bind(f).Bind(g) == m.Bind(y => f(y).Bind(g))
    ensures m.Map(h) == m.Bind(y => Just(h(y)))
  {
  }
}
