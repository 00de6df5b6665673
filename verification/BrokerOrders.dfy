/** The broker-neutral order snapshot and the two status vocabularies that feed it. */
module BrokerOrders {
  import opened Prelude

  datatype OrderState =
    | Created | Submitting | Acknowledged | Open | PartiallyFilled | Complete
    | CancelRequested | Cancelled | Rejected | Unknown | ReconciliationRequired

  datatype QuantityQuality = QuantityConfirmed | QuantityMissing
  datatype PriceQuality = PriceConfirmed | PriceMissing | PriceNotApplicable
  datatype Accounting = AccountingComplete | PendingPrice | Unproven
  datatype Evidence = Evidence(quantity: QuantityQuality, price: PriceQuality, accounting: Accounting)

  datatype RejectFamily =
    | Margin | PriceBand | InstrumentUnavailable | MarketClosed | RateLimit | Rms
    | QuantityFreeze | Auth | Generic

  datatype Fill = Fill(quantity: int, price: Option<real>, at: int)

  datatype Order = Order(
    clientId: string,
    brokerId: Option<string>,
    quantity: int,
    state: OrderState,
    filled: int,
    pending: int,
    price: Option<real>,
    fills: seq<Fill>,
    evidence: Option<Evidence>,
    rejectFamily: Option<RejectFamily>,
    createdAt: int,
    updatedAt: int,
    exchangeAt: Option<int>)

  predicate Terminal(state: OrderState) {
    state.Complete? || state.Cancelled? || state.Rejected?
  }

  /** The states an order never leaves: the terminal ones and the reconciliation route. */
  predicate Settled(state: OrderState) {
    Terminal(state) || state.ReconciliationRequired?
  }

  datatype DhanLabel =
    | DhanTransit | DhanPending | DhanPartTraded | DhanTraded | DhanCancelled | DhanClosed
    | DhanRejected | DhanExpired | DhanOther

  datatype KiteLabel =
    | KiteComplete | KiteCancelled | KiteCancelledAmo | KiteRejected
    | KiteCancelPending | KiteTriggerPending | KiteOtherPending
    | KiteOpen | KitePutOrderReqReceived | KiteAmoReqReceived | KiteOther

  /** A broker's verbatim status, already matched against that broker's vocabulary. */
  datatype Label = Dhan(dhan: DhanLabel) | Kite(kite: KiteLabel)

  function DhanState(status: DhanLabel, filled: int, quantity: int): OrderState {
    var partial := 0 < filled < quantity;
    match status
    case DhanTransit => Acknowledged
    case DhanPending => if partial then PartiallyFilled else Open
    case DhanPartTraded => if filled >= quantity && quantity > 0 then Complete else PartiallyFilled
    case DhanTraded => if partial then PartiallyFilled else Complete
    case DhanCancelled => Cancelled
    case DhanClosed => Cancelled
    case DhanRejected => Rejected
    case DhanExpired => if partial then PartiallyFilled else Cancelled
    case DhanOther => Unknown
  }

  function KiteState(status: KiteLabel, filled: int, quantity: int): OrderState {
    var partial := 0 < filled < quantity;
    match status
    case KiteComplete => Complete
    case KiteCancelled => Cancelled
    case KiteCancelledAmo => Cancelled
    case KiteRejected => Rejected
    case KiteCancelPending => CancelRequested
    case KiteTriggerPending => Open
    case KiteOtherPending => if partial then PartiallyFilled else Acknowledged
    case KiteOpen => if partial then PartiallyFilled else Open
    case KitePutOrderReqReceived => if partial then PartiallyFilled else Acknowledged
    case KiteAmoReqReceived => if partial then PartiallyFilled else Acknowledged
    case KiteOther => if partial then PartiallyFilled else Unknown
  }

  function ClaimedState(status: Label, filled: int, quantity: int): OrderState {
    match status
    case Dhan(l) => DhanState(l, filled, quantity)
    case Kite(l) => KiteState(l, filled, quantity)
  }
}
