/** The rows the recorder stores and the replay engine reads back (the DepthSnapshot and
    DiffDepthStream tables of model.py), without their timestamp and symbol columns, which
    no logic of the core inspects. Prices and quantities are integers (ticks): the core only
    compares them with 0, with each other and orders them. */
module Rows {

  datatype Option<T> = None | Some(value: T)

  /** A full-depth snapshot as stored: parallel quantity and price columns per side. */
  datatype DepthSnapshot = DepthSnapshot(
    lastUpdateId: nat,
    bidsQuantity: seq<int>,
    bidsPrice: seq<int>,
    asksQuantity: seq<int>,
    asksPrice: seq<int>)

  /** One diff event as stored, covering update ids firstUpdateId..finalUpdateId. */
  datatype DiffDepthStream = DiffDepthStream(
    firstUpdateId: nat,
    finalUpdateId: nat,
    bidsQuantity: seq<int>,
    bidsPrice: seq<int>,
    asksQuantity: seq<int>,
    asksPrice: seq<int>)
}
