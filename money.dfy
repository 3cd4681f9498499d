/**
 * `Money`: an amount in the single fixed currency, wrapping an exact decimal value.
 * Swift's `Decimal` is modelled as an exact `real`.
 */
module Money {

  const CurrencyCode := "MXN"

  datatype Money = Money(value: real)

  /** `init(decimal:)` */
  function FromDecimal(d: real): Money {
    Money(d)
  }

  /** `decimalValue` */
  function DecimalValue(m: Money): real {
    m.value
  }

  /** `lhs + rhs` */
  function Plus(lhs: Money, rhs: Money): (r: Money)
    ensures DecimalValue(r) == DecimalValue(lhs) + DecimalValue(rhs)
  {
    FromDecimal(lhs.value + rhs.value)
  }

  /** `lhs - rhs` */
  function Minus(lhs: Money, rhs: Money): (r: Money)
    ensures DecimalValue(r) == DecimalValue(lhs) - DecimalValue(rhs)
  {
    FromDecimal(lhs.value - rhs.value)
  }

  /** `lhs * rate` with a `Decimal` factor. */
  function Times(lhs: Money, rate: real): (r: Money)
    ensures DecimalValue(r) == DecimalValue(lhs) * rate
  {
    FromDecimal(lhs.value * rate)
  }

  /** `lhs > rhs` */
  predicate Greater(lhs: Money, rhs: Money) {
    lhs.value > rhs.value
  }

  /** `lhs < rhs` */
  predicate Less(lhs: Money, rhs: Money) {
    lhs.value < rhs.value
  }

  /** Wrapping a decimal and reading it back is exact, and every amount is such a wrapping. */
  lemma DecimalRoundTrip(d: real, m: Money)
    ensures DecimalValue(FromDecimal(d)) == d
    ensures FromDecimal(DecimalValue(m)) == m
  {
  }

  /** Addition commutes, and subtracting what was added gives the amount back exactly. */
  lemma PlusLaws(a: Money, b: Money)
    ensures Plus(a, b) == Plus(b, a)
    ensures Minus(Plus(a, b), b) == a
  {
  }

  /** `<` is `>` with the operands swapped, and the two never hold together. */
  lemma OrderLaws(a: Money, b: Money)
    ensures Less(a, b) <==> Greater(b, a)
    ensures !(Less(a, b) && Greater(a, b))
  {
  }
}
