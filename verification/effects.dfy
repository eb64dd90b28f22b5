/**
 * What a handler hands to the notification fan-out: the group a message is
 * pushed to and the message, in push order. A handler's result is its reply
 * kind, the table after its commit, and this outbox.
 */
module Effects {
  import opened Wrappers
  import opened Enums
  import opened Times
  import opened Responses

  /** The three connection groups a message can be pushed to. */
  datatype Role = PlatformGroup | ClientGroup | DriverGroup

  /** The registry key `send_message_to_type` is called with. */
  function RoleKey(r: Role): string {
    match r
    case PlatformGroup => "platform"
    case ClientGroup => "client"
    case DriverGroup => "driver"
  }

  /** The pushed JSON messages, by their `type` field. */
  datatype Event =
    | FeeSubmitted(driverId: string, orderId: string, pathId: string,
                   highwayFee: int, parkingFee: int, carryFee: int, waitFee: int,
                   highwayBillImgs: Option<string>, parkingBillImgs: Option<string>, submitTime: Time)
    | FeeConfirmed(driverId: string, orderId: string, pathId: string, confirmTime: Time)
    | FeeRejected(feeId: string, status: OrderStatus, rejectReason: string,
                  rejectHighwayFee: Option<int>, rejectParkingFee: Option<int>)
    | SettlementRequested(feeId: string, status: OrderStatus)

  function TypeTag(e: Event): string {
    match e
    case FeeSubmitted(_, _, _, _, _, _, _, _, _, _) => "fee_submitted"
    case FeeConfirmed(_, _, _, _) => "fee_confirmed"
    case FeeRejected(_, _, _, _, _) => "reject_fee"
    case SettlementRequested(_, _) => "pay_fee"
  }

  type Outbox = seq<(Role, Event)>

  /** The groups an outbox pushes to. */
  function Recipients(o: Outbox): set<Role> {
    set i | 0 <= i < |o| :: o[i].0
  }

  datatype Transition<S> = Transition(kind: Kind, state: S, outbox: Outbox)
}
