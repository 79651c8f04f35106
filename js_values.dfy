/**
 * JavaScript values at the boundary of the metrics engine.
 *
 * A JavaScript `number` is either a finite double or one of NaN, +Infinity,
 * -Infinity; the engine tests `Number.isFinite` in many places, so inputs that
 * it tests are modelled as `Num`. Finite doubles are modelled as exact reals.
 */
module JsValues {
  import opened Wrappers
  import opened Sequences

  datatype Num = Fin(v: real) | NaN | PosInf | NegInf {
    /** `Number.isFinite(x)` */
    predicate IsFinite() { Fin? }
  }

  /** IEEE-754 addition, with finite operands added exactly. */
  function NumAdd(a: Num, b: Num): (r: Num)
    ensures r.Fin? <==> a.Fin? && b.Fin?
    ensures a.Fin? && b.Fin? ==> r.v == a.v + b.v
    ensures (a.NaN? || b.NaN?) ==> r.NaN?
  {
    match (a, b)
    case (Fin(x), Fin(y)) => Fin(x + y)
    case (NaN, _) => NaN
    case (_, NaN) => NaN
    case (PosInf, NegInf) => NaN
    case (NegInf, PosInf) => NaN
    case (PosInf, _) => PosInf
    case (_, PosInf) => PosInf
    case (NegInf, _) => NegInf
    case (_, NegInf) => NegInf
  }

  /** `x > 0` on a JavaScript number (false for NaN). */
  predicate NumPositive(x: Num) {
    match x
    case Fin(v) => v > 0.0
    case PosInf => true
    case _ => false
  }

  /** `x < 0` on a JavaScript number (false for NaN). */
  predicate NumNegative(x: Num) {
    match x
    case Fin(v) => v < 0.0
    case NegInf => true
    case _ => false
  }

  /**
   * An object property read as JavaScript sees it: absent (`undefined`),
   * explicitly `null`, or holding a value.
   */
  datatype JsOpt<+T> = Undefined | Null | Defined(value: T) {
    /** `v == null`: the loose test that treats `undefined` and `null` alike. */
    predicate IsNullish() { !Defined? }

    /** `v ?? fallback` */
    function OrElse(fallback: T): T {
      if Defined? then value else fallback
    }
  }

  function FiniteOf(x: Num): Option<real>
  {
    if x.Fin? then Some(x.v) else None
  }

  /** `values.filter(Number.isFinite)`: the finite daily net values, in order. */
  function FiniteValues(xs: seq<Num>): (r: seq<real>)
    ensures |r| <= |xs|
  {
    FilterMap(xs, FiniteOf)
  }

  /** Dropping the non-finite values a second time changes nothing. */
  lemma {:induction false} FiniteValuesIdempotent(xs: seq<Num>)
    ensures FiniteValues(Map(FiniteValues(xs), (v: real) => Fin(v))) == FiniteValues(xs)
  {
    if xs != [] {
      FiniteValuesIdempotent(xs[1..]);
      var fin := (v: real) => Fin(v);
      var head := if xs[0].Fin? then [xs[0].v] else [];
      assert FiniteValues(xs) == head + FiniteValues(xs[1..]);
      MapConcat(head, FiniteValues(xs[1..]), fin);
      FilterMapConcat(Map(head, fin), Map(FiniteValues(xs[1..]), fin), FiniteOf);
      if xs[0].Fin? {
        FilterMapSingle(Fin(xs[0].v), FiniteOf);
        assert Map(head, fin) == [Fin(xs[0].v)];
      }
    }
  }

  /** `values.reduce((total, value) => total + value, 0)` with JavaScript addition. */
  function NumSum(s: seq<Num>): (r: Num)
    ensures (forall k :: 0 <= k < |s| ==> s[k].Fin?) ==> r.Fin?
  {
    if s == [] then Fin(0.0) else NumAdd(NumSum(s[..|s| - 1]), s[|s| - 1])
  }
}
