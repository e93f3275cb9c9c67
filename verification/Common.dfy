/** Vocabulary shared by every component of the order path: sides, order types,
    intents, the persisted order row and a few arithmetic helpers. Decimals and
    floats are exact reals; instants are reals counting seconds. */
module Common {

  datatype Option<+T> = None | Some(value: T)

  datatype Side = Buy | Sell {
    function Opposite(): Side {
      if Buy? then Sell else Buy
    }
  }

  datatype OrderType = Limit | Market | PostOnly | Ioc | Fok

  /** The metadata dictionary of an intent, restricted to the entries that the ladder reads. */
  datatype Metadata = Metadata(ladderKey: Option<string>, side: Option<string>,
                               level: Option<int>, symbol: Option<string>)

  datatype Intent = Intent(symbol: string, side: Side, orderType: OrderType, quantity: real,
                           price: Option<real>, clientId: string, metadata: Metadata)

  /** Status column of the orders table. */
  datatype OrderStatus = Created | Submitted | Open | PartiallyFilled
                       | Filled | CancelPending | Cancelled | Rejected | Expired | Failed
  {
    predicate Active() {
      Created? || Working()
    }

    /** The narrower list read by the self-trade check, which omits `created`. */
    predicate Working() {
      Submitted? || Open? || PartiallyFilled?
    }
  }

  datatype Row = Row(account: string, side: Side, status: OrderStatus, price: Option<real>,
                     quantity: real, filled: real, average: Option<real>)

  /** The orders table; client ids are unique in it. */
  type Table = map<string, Row>

  function Max(x: real, y: real): real {
    if x < y then y else x
  }

  function Min(x: real, y: real): real {
    if x < y then x else y
  }

  function Abs(x: real): real {
    if x < 0.0 then -x else x
  }
}
