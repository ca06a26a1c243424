/** FX quotes and the errors of the rates provider. */
module Quotes {
  datatype Quote = Quote(
    settlement: string,
    presentment: string,
    rate: real,
    timestamp: int,
    source: string,
    stale: bool)

  datatype RateError = UnsupportedCurrencyPair | RateUnavailable | WaitCancelled
}
