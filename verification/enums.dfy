/**
 * The state enumerations of models/enums.py and the client-facing
 * settlement status of the settlement list. Each Python member is a `str`
 * enum, so comparisons against plain strings compare these values. An
 * enum-typed column keeps the member NAME in the database, and a plain string
 * compared with such a column is accepted as either a member's value or its
 * name.
 */
module Enums {
  import opened Wrappers

  datatype OrderStatus = Appealing | PendingPayment | PendingSettlement | Settled

  /** The string value behind each order status. */
  function OrderStatusValue(s: OrderStatus): string {
    match s
    case Appealing => "申诉中"
    case PendingPayment => "待支付"
    case PendingSettlement => "待结算"
    case Settled => "已结算"
  }

  /** Reads a value string back as an order status (`OrderStatusEnum(v)`). */
  function ParseOrderStatus(v: string): Option<OrderStatus> {
    if v == "申诉中" then Some(Appealing)
    else if v == "待支付" then Some(PendingPayment)
    else if v == "待结算" then Some(PendingSettlement)
    else if v == "已结算" then Some(Settled)
    else None
  }

  /** The member name behind each order status, which the enum column keeps. */
  function OrderStatusName(s: OrderStatus): string {
    match s
    case Appealing => "APPEALING"
    case PendingPayment => "PENDING_PAYMENT"
    case PendingSettlement => "PENDING_SETTLEMENT"
    case Settled => "SETTLED"
  }

  /**
   * How the enum column reads a plain string it is compared with: a member's
   * value or a member's name stands for that member. Any other string is
   * compared unchanged with the stored names and so stands for none.
   */
  function OrderStatusLookup(v: string): Option<OrderStatus> {
    match ParseOrderStatus(v)
    case Some(s) => Some(s)
    case None =>
      if v == "APPEALING" then Some(Appealing)
      else if v == "PENDING_PAYMENT" then Some(PendingPayment)
      else if v == "PENDING_SETTLEMENT" then Some(PendingSettlement)
      else if v == "SETTLED" then Some(Settled)
      else None
  }

  /** A string stands for a status exactly when it is that status's value or its name. */
  lemma OrderStatusLookupIff(s: OrderStatus, v: string)
    ensures OrderStatusLookup(v) == Some(s) <==> v == OrderStatusValue(s) || v == OrderStatusName(s)
    ensures OrderStatusLookup(OrderStatusValue(s)) == Some(s) && OrderStatusLookup(OrderStatusName(s)) == Some(s)
  {
    OrderStatusRoundTrip(s, v);
  }

  /** Parsing inverts the value mapping, in both directions. */
  lemma OrderStatusRoundTrip(s: OrderStatus, v: string)
    ensures ParseOrderStatus(OrderStatusValue(s)) == Some(s)
    ensures ParseOrderStatus(v) == Some(s) <==> OrderStatusValue(s) == v
  {
  }

  /** The four order statuses carry four distinct values. */
  lemma OrderStatusValuesDistinct()
    ensures |set s: OrderStatus :: OrderStatusValue(s)| == 4
    ensures forall a: OrderStatus, b: OrderStatus :: OrderStatusValue(a) == OrderStatusValue(b) ==> a == b
  {
    var vs := set s: OrderStatus :: OrderStatusValue(s);
    assert vs == {"申诉中", "待支付", "待结算", "已结算"} by {
      forall v | v in vs ensures v in {"申诉中", "待支付", "待结算", "已结算"} {
        var s :| OrderStatusValue(s) == v;
      }
      assert OrderStatusValue(Appealing) in vs;
      assert OrderStatusValue(PendingPayment) in vs;
      assert OrderStatusValue(PendingSettlement) in vs;
      assert OrderStatusValue(Settled) in vs;
    }
  }

  datatype RechargeStatus = UnderReview | Approved

  function RechargeStatusValue(s: RechargeStatus): string {
    match s
    case UnderReview => "审核中"
    case Approved => "已通过"
  }

  /** The two recharge statuses carry two distinct values. */
  lemma RechargeStatusValuesDistinct()
    ensures |set s: RechargeStatus :: RechargeStatusValue(s)| == 2
  {
    var vs := set s: RechargeStatus :: RechargeStatusValue(s);
    assert vs == {"审核中", "已通过"} by {
      forall v | v in vs ensures v in {"审核中", "已通过"} {
        var s :| RechargeStatusValue(s) == v;
      }
      assert RechargeStatusValue(UnderReview) in vs;
      assert RechargeStatusValue(Approved) in vs;
    }
  }

  datatype OperatorType = Client | Platform

  function OperatorTypeValue(t: OperatorType): string {
    match t
    case Client => "CLIENT"
    case Platform => "PLATFORM"
  }

  /** The status filter of the client settlement list, declared in api/client.py. */
  datatype SettlementStatus = SettlementPending | SettlementSettled

  function SettlementStatusValue(s: SettlementStatus): string {
    match s
    case SettlementPending => "待结算"
    case SettlementSettled => "已结算"
  }

  /**
   * The settlement values coincide with the order-status values, so a
   * settlement filter compared against the stored status selects the order
   * status of the same value.
   */
  lemma SettlementValuesCoincide(s: SettlementStatus, o: OrderStatus)
    ensures SettlementStatusValue(SettlementPending) == OrderStatusValue(PendingSettlement)
    ensures SettlementStatusValue(SettlementSettled) == OrderStatusValue(Settled)
    ensures SettlementStatusValue(s) == OrderStatusValue(o)
        <==> (s == SettlementPending && o == PendingSettlement) || (s == SettlementSettled && o == Settled)
  {
  }
}
