/** The `Coin` enum and `value_in_cents`. */
module Enums {

  /** Rust's `u8`. */
  newtype uint8 = x: int | 0 <= x < 0x100

  datatype UsState = Massachusetts

  datatype Coin = Penny | Nickel | Dime | Quarter(state: UsState)

  /** `value_in_cents`: the value of a coin in cents. The messages it prints for a
      penny and for a quarter are not modelled. */
  function ValueInCents(coin: Coin): (cents: uint8)
    ensures cents in {1, 5, 10, 25}
  {
    match coin
    case Penny => 1
    case Nickel => 5
    case Dime => 10
    case Quarter(_) => 25
  }

  /** Two coins are of the same kind, whatever state a quarter comes from. */
  predicate SameKind(a: Coin, b: Coin)
  {
    (a.Penny? && b.Penny?) || (a.Nickel? && b.Nickel?) || (a.Dime? && b.Dime?) || (a.Quarter? && b.Quarter?)
  }

  /** The value tells the kind of coin apart, and only the kind: every quarter is
      worth 25 cents whatever its state. */
  lemma ValueDeterminesKind(a: Coin, b: Coin)
    ensures ValueInCents(a) == ValueInCents(b) <==> SameKind(a, b)
  {
  }

  /** Penny, nickel, dime and quarter, in that order, are worth strictly more. */
  lemma ValueIncreasing(state: UsState)
    ensures ValueInCents(Penny) < ValueInCents(Nickel) < ValueInCents(Dime) < ValueInCents(Quarter(state))
  {
  }

  /** `main`: a quarter from Massachusetts is worth 25 cents. */
  lemma MainScenario()
    ensures ValueInCents(Quarter(Massachusetts)) == 25
  {
  }
}
