/** Canonical events as far as lifecycle rules and projections read them (shared/contracts, collector/event_model). */
module Events {
  import opened Common

  datatype Kind =
    | TickReceivedKind | TriggerDetectedKind | ContextBuiltKind | AiRequestKind | AiResponseKind | RiskGateKind
    | OrderSubmittedKind | OrderAcknowledgedKind | OrderFilledKind | PositionOpenedKind | PositionUpdatedKind
    | NetProfitPositiveKind | ExitSubmittedKind | PositionClosedKind | ReconciliationKind | ErrorKind | TimeoutKind

  datatype Payload =
    | TickReceived
    | TriggerDetected
    | ContextBuilt(snapshotId: string, m1: string, m5: string, atrM1: real, atrM5: Option<real>,
      features: Option<string>)
    | AiRequest
    | AiResponse
    | RiskGate(reject: bool, reason: string, json: string)
    | OrderSubmitted
    | OrderAcknowledged(order: string, brokerState: string, ackTs: string)
    | OrderFilled(order: string, fillTs: string, response: string)
    | PositionOpened(position: string, direction: string, volume: real, openPrice: real, openTs: string)
    | PositionUpdated(mfe: real, mae: real)
    | NetProfitPositive
    | ExitSubmitted
    | PositionClosed(position: string, exitPrice: real, exitTs: string, netPnl: real, txCost: real, exitReason: string)
    | Reconciliation(recId: string, ts: string, localState: string, remoteState: string, result: string,
      details: string)
    | Error
    | Timeout
  {
    function Kind(): Kind {
      match this
      case TickReceived => TickReceivedKind
      case TriggerDetected => TriggerDetectedKind
      case ContextBuilt(_, _, _, _, _, _) => ContextBuiltKind
      case AiRequest => AiRequestKind
      case AiResponse => AiResponseKind
      case RiskGate(_, _, _) => RiskGateKind
      case OrderSubmitted => OrderSubmittedKind
      case OrderAcknowledged(_, _, _) => OrderAcknowledgedKind
      case OrderFilled(_, _, _) => OrderFilledKind
      case PositionOpened(_, _, _, _, _) => PositionOpenedKind
      case PositionUpdated(_, _) => PositionUpdatedKind
      case NetProfitPositive => NetProfitPositiveKind
      case ExitSubmitted => ExitSubmittedKind
      case PositionClosed(_, _, _, _, _, _) => PositionClosedKind
      case Reconciliation(_, _, _, _, _, _) => ReconciliationKind
      case Error => ErrorKind
      case Timeout => TimeoutKind
    }
  }

  datatype Event = Event(
    id: string, tsEvent: string, tsCollected: string, tsMonotonic: int,
    correlation: Option<string>, trade: Option<string>, payload: Payload)
}
