/** The market record every view works on, as the market-list endpoint
    delivers it. The core only reads it. */
module Coins {

  /** One entry of the market list. `id` is the stable identity key; prices
      are the endpoint's numbers, taken as exact reals. */
  datatype Coin = Coin(
    id: string,
    name: string,
    image: string,
    currentPrice: real,
    marketCap: real
  )

  /** A value that may be absent (a view part that is not rendered). */
  datatype Option<T> = None | Some(value: T)
}
