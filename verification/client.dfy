/**
 * The fee endpoints of api/client.py: the client settlement list with its
 * status alias, the platform reject, the client "request settlement" flag,
 * and the order-detail lookup.
 */
module ClientApi {
  import opened Wrappers
  import opened Text
  import opened Enums
  import opened Times
  import opened Responses
  import opened Fees
  import opened Effects
  import Tables

  // ---------------------------------------------------------------- settlement list

  /** The status shown to the client: `PENDING_PAYMENT` reads as "待结算"; other statuses pass through. */
  function DisplayStatus(s: OrderStatus): string {
    if s == PendingPayment then SettlementStatusValue(SettlementPending) else OrderStatusValue(s)
  }

  /** The status part of the WHERE clause. */
  predicate StatusMatches(f: Fee, status: Option<SettlementStatus>) {
    match status
    case None => f.status == PendingPayment || f.status == Settled
    case Some(SettlementPending) => f.status == PendingPayment
    case Some(s) => OrderStatusValue(f.status) == SettlementStatusValue(s)
  }

  /** A requested day range, already bounded: `order_time` from `lo` to `hi` inclusive. */
  datatype DayRange = DayRange(lo: Time, hi: Time)

  datatype SettlementQuery = SettlementQuery(
    dispatchChannel: Option<string>,
    status: Option<SettlementStatus>,
    pathId: Option<string>,
    orderId: Option<string>,
    range: Option<DayRange>)

  /** A search field that takes part in the query: present and not blank. */
  predicate Searching(o: Option<string>) {
    o.Some? && !IsBlank(o.value)
  }

  /** The WHERE clause of `get_settlement_list`, shared by the listing and the count query. */
  predicate SettlementMatches(f: Fee, q: SettlementQuery) {
    && StatusMatches(f, q.status)
    && (Searching(q.dispatchChannel) ==> f.dispatchChannel == Some(Strip(q.dispatchChannel.value)))
    && (Searching(q.pathId) ==> Contains(f.pathId, Strip(q.pathId.value)))
    && (Searching(q.orderId) ==> Contains(f.orderId, Strip(q.orderId.value)))
    && (q.range.Some? ==> f.orderTime.Some? && q.range.value.lo <= f.orderTime.value <= q.range.value.hi)
  }

  /** `ORDER BY order_time DESC`, a missing order time sorting below every instant. */
  function OrderTimeKey(f: Fee): int {
    if f.orderTime.Some? then f.orderTime.value else -1
  }

  /** One listed fee with the status the client sees. */
  datatype SettlementItem = SettlementItem(fee: Fee, status: string)

  function ToItem(f: Fee): SettlementItem {
    SettlementItem(f, DisplayStatus(f.status))
  }

  /**
   * Resolves the two day strings into a range: both must be present to filter
   * at all, and each must parse (`parseDate` is `strptime(.., "%Y-%m-%d")`, giving
   * the day's midnight) or the request is refused.
   */
  function DayRangeOf(startTime: Option<string>, endTime: Option<string>, parseDate: string -> Option<Time>): (r: Option<Option<DayRange>>)
    ensures !(Truthy(startTime) && Truthy(endTime)) ==> r == Some(None)
    ensures Truthy(startTime) && Truthy(endTime) ==>
      (r.None? <==> parseDate(startTime.value).None? || parseDate(endTime.value).None?)
    ensures r.Some? && r.value.Some? ==>
      && r.value.value.lo == parseDate(startTime.value).value
      && r.value.value.hi == parseDate(endTime.value).value + EndOfDayOffset
  {
    if Truthy(startTime) && Truthy(endTime) then
      match (parseDate(startTime.value), parseDate(endTime.value))
      case (Some(lo), Some(day)) => Some(Some(DayRange(lo, day + EndOfDayOffset)))
      case _ => None
    else
      Some(None)
  }

  /**
   * `get_settlement_list`: a malformed day is a parameter error; otherwise one
   * page of the matching fees, latest order time first, each with its display status.
   */
  function GetSettlementList(t: FeeTable, page: nat, size: nat,
                             dispatchChannel: Option<string>, status: Option<SettlementStatus>,
                             pathId: Option<string>, orderId: Option<string>,
                             startTime: Option<string>, endTime: Option<string>,
                             parseDate: string -> Option<Time>): (r: (Kind, Option<Tables.PageOf<SettlementItem>>))
    requires page >= 1 && size >= 1
    ensures r.0 == Success || r.0 == ParamError
    ensures r.0 == ParamError <==> DayRangeOf(startTime, endTime, parseDate).None?
    ensures r.0 == ParamError ==> r.1 == None
    ensures r.0 == Success ==> r.1.Some?
    ensures r.0 == Success ==>
      var q := SettlementQuery(dispatchChannel, status, pathId, orderId, DayRangeOf(startTime, endTime, parseDate).value);
      var p := r.1.value;
      && p.page == page && p.size == size
      && p.total == |Tables.Filter(t, (f: Fee) => SettlementMatches(f, q))|
      && p.totalPages * size >= p.total && (p.totalPages > 0 ==> (p.totalPages - 1) * size < p.total)
      && p.items == Tables.MapRows(Tables.Page(Tables.Listing(t, (f: Fee) => SettlementMatches(f, q), OrderTimeKey), page, size), ToItem)
      && |p.items| == (if p.total <= Tables.Offset(page, size) then 0
                       else if p.total - Tables.Offset(page, size) >= size then size
                       else p.total - Tables.Offset(page, size))
      && |p.items| <= size
      && (forall i :: 0 <= i < |p.items| ==>
            SettlementMatches(p.items[i].fee, q) && p.items[i].fee in t
            && p.items[i].status == DisplayStatus(p.items[i].fee.status))
      && (forall i, j :: 0 <= i < j < |p.items| ==> OrderTimeKey(p.items[i].fee) >= OrderTimeKey(p.items[j].fee))
  {
    match DayRangeOf(startTime, endTime, parseDate)
    case None => (ParamError, None)
    case Some(range) =>
      var q := SettlementQuery(dispatchChannel, status, pathId, orderId, range);
      var fees := Tables.ListPage(t, (f: Fee) => SettlementMatches(f, q), OrderTimeKey, page, size);
      var items := Tables.MapRows(fees.items, ToItem);
      (Success, Some(Tables.PageOf(items, fees.total, fees.page, fees.size, fees.totalPages)))
  }

  /**
   * The status alias: the "待结算" filter selects exactly the stored
   * `PENDING_PAYMENT` fees, "已结算" exactly the settled ones, and no filter
   * both; every selected fee displays as the filter it was selected by.
   */
  lemma StatusFilterAlias(f: Fee)
    ensures StatusMatches(f, Some(SettlementPending)) <==> f.status == PendingPayment
    ensures StatusMatches(f, Some(SettlementSettled)) <==> f.status == Settled
    ensures StatusMatches(f, None) <==> f.status == PendingPayment || f.status == Settled
    ensures StatusMatches(f, Some(SettlementPending)) ==> DisplayStatus(f.status) == "待结算"
    ensures StatusMatches(f, Some(SettlementSettled)) ==> DisplayStatus(f.status) == "已结算"
  {
    SettlementValuesCoincide(SettlementSettled, f.status);
  }

  /** Only `PENDING_PAYMENT` is renamed for display; the display never shows "待支付". */
  lemma DisplayStatusRenamesOnlyPendingPayment(s: OrderStatus)
    ensures s != PendingPayment ==> DisplayStatus(s) == OrderStatusValue(s)
    ensures DisplayStatus(s) != OrderStatusValue(PendingPayment)
    ensures DisplayStatus(s) == "待结算" <==> s == PendingPayment || s == PendingSettlement
  {
  }

  // ---------------------------------------------------------------- reject

  datatype RejectRequest = RejectRequest(
    feeId: string, rejectType: string, rejectReason: string,
    rejectHighwayFee: Option<int>, rejectParkingFee: Option<int>)

  /** `max(0, amount - d)` when a deduction is supplied, `amount` otherwise. */
  function Deduct(amount: int, d: Option<int>): (r: int)
    ensures d.None? ==> r == amount
    ensures d.Some? ==> r >= 0
    ensures d.Some? && d.value <= amount ==> r == amount - d.value
    ensures d.Some? && d.value >= amount ==> r == 0
  {
    match d
    case None => amount
    case Some(x) => if amount - x > 0 then amount - x else 0
  }

  /** A reject is allowed from these two statuses only. */
  predicate Rejectable(s: OrderStatus) {
    s == PendingPayment || s == Appealing
  }

  function RejectedEvent(req: RejectRequest): Event {
    FeeRejected(req.feeId, Settled, req.rejectReason, req.rejectHighwayFee, req.rejectParkingFee)
  }

  /** The row after a reject: the "bill" flavour deducts and records a bill reason, any other records a receipt reason. */
  function Rejected(f: Fee, req: RejectRequest, now: Time): Fee {
    var g :=
      if req.rejectType == "bill" then
        f.(billRejectReason := Some(req.rejectReason),
           highwayFee := Deduct(f.highwayFee, req.rejectHighwayFee),
           parkingFee := Deduct(f.parkingFee, req.rejectParkingFee))
      else
        f.(receiptRejectReason := Some(req.rejectReason));
    g.(status := Settled, updatedAt := now)
  }

  /**
   * `reject_fee`: an unknown id is not found, a fee outside
   * `PENDING_PAYMENT`/`APPEALING` is a parameter error, and a rejected fee ends
   * `SETTLED` with one `reject_fee` push to the driver group.
   */
  function RejectFee(t: FeeTable, req: RejectRequest, now: Time): (r: Transition<FeeTable>)
    ensures r.kind == Success || r.kind == NotFound || r.kind == ParamError
    ensures r.kind == NotFound <==> req.feeId !in Ids(t)
    ensures r.kind == Success <==> req.feeId in Ids(t) && Rejectable(t[FindById(t, req.feeId).value].status)
    ensures r.kind != Success ==> r.state == t && r.outbox == []
    ensures |r.state| == |t|
    ensures r.kind == Success ==>
      var k := FindById(t, req.feeId).value;
      var f := t[k];
      var g := r.state[k];
      && (forall i :: 0 <= i < |t| && i != k ==> r.state[i] == t[i])
      && g.status == Settled && g.updatedAt == now && g.feeId == f.feeId
      && g.totalPrice == f.totalPrice && g.driverFee == f.driverFee
      && g.carryFee == f.carryFee && g.waitFee == f.waitFee
      && g.settlementEnable == f.settlementEnable && g.orderTime == f.orderTime
      && g.(status := f.status, updatedAt := f.updatedAt, highwayFee := f.highwayFee, parkingFee := f.parkingFee,
            billRejectReason := f.billRejectReason, receiptRejectReason := f.receiptRejectReason) == f
      && (req.rejectType == "bill" ==>
            && g.highwayFee == Deduct(f.highwayFee, req.rejectHighwayFee)
            && g.parkingFee == Deduct(f.parkingFee, req.rejectParkingFee)
            && g.billRejectReason == Some(req.rejectReason)
            && g.receiptRejectReason == f.receiptRejectReason)
      && (req.rejectType != "bill" ==>
            && SameAmounts(g, f)
            && g.receiptRejectReason == Some(req.rejectReason)
            && g.billRejectReason == f.billRejectReason)
      && r.outbox == [(DriverGroup, RejectedEvent(req))]
    ensures UniqueIds(t) ==> UniqueIds(r.state)
    ensures NoPendingSettlement(t) ==> NoPendingSettlement(r.state)
  {
    match FindById(t, req.feeId)
    case None => Transition(NotFound, t, [])
    case Some(k) =>
      if !Rejectable(t[k].status) then
        Transition(ParamError, t, [])
      else
        Transition(Success, Replace(t, k, Rejected(t[k], req, now)), [(DriverGroup, RejectedEvent(req))])
  }

  /** A negative deduction is not refused: it raises the amount instead of lowering it. */
  lemma NegativeDeductionRaisesFee(amount: int, d: int)
    requires d < 0 && amount >= 0
    ensures Deduct(amount, Some(d)) == amount - d > amount
  {
  }

  /** A fee once rejected (now `SETTLED`) cannot be rejected again. */
  lemma RejectTwiceRefused(t: FeeTable, req: RejectRequest, now: Time)
    requires UniqueIds(t)
    requires RejectFee(t, req, now).kind == Success
    ensures RejectFee(RejectFee(t, req, now).state, req, now).kind == ParamError
    ensures RejectFee(RejectFee(t, req, now).state, req, now).state == RejectFee(t, req, now).state
  {
    var t1 := RejectFee(t, req, now).state;
    var k := FindById(t, req.feeId).value;
    assert t1[k].feeId == req.feeId;
    assert FindById(t1, req.feeId) == Some(k);
  }

  // ---------------------------------------------------------------- request settlement

  /**
   * `pay_fee`: only raises the fee's `settlement_enable` flag and pushes
   * `pay_fee` to the platform group; no status or amount changes, no money moves.
   */
  function PayFee(t: FeeTable, feeId: string, now: Time): (r: Transition<FeeTable>)
    ensures r.kind == Success || r.kind == NotFound
    ensures r.kind == NotFound <==> feeId !in Ids(t)
    ensures r.kind == NotFound ==> r.state == t && r.outbox == []
    ensures r.kind == Success ==>
      var k := FindById(t, feeId).value;
      && |r.state| == |t|
      && (forall i :: 0 <= i < |t| && i != k ==> r.state[i] == t[i])
      && r.state[k].settlementEnable
      && r.state[k].(settlementEnable := t[k].settlementEnable, updatedAt := t[k].updatedAt) == t[k]
      && r.state[k].updatedAt == now
      && r.outbox == [(PlatformGroup, SettlementRequested(feeId, t[k].status))]
    ensures UniqueIds(t) ==> UniqueIds(r.state)
    ensures NoPendingSettlement(t) ==> NoPendingSettlement(r.state)
  {
    match FindById(t, feeId)
    case None => Transition(NotFound, t, [])
    case Some(k) =>
      Transition(Success, Replace(t, k, t[k].(settlementEnable := true, updatedAt := now)),
                 [(PlatformGroup, SettlementRequested(feeId, t[k].status))])
  }

  /** Requesting settlement twice leaves the table as requesting it once. */
  lemma PayFeeIdempotent(t: FeeTable, feeId: string, now: Time)
    ensures PayFee(PayFee(t, feeId, now).state, feeId, now).state == PayFee(t, feeId, now).state
  {
    var t1 := PayFee(t, feeId, now).state;
    if feeId in Ids(t) {
      var k := FindById(t, feeId).value;
      assert FindById(t1, feeId) == Some(k) by {
        assert forall i :: 0 <= i < k ==> t1[i] == t[i];
      }
      assert PayFee(t1, feeId, now).state == t1;
    }
  }

  // ---------------------------------------------------------------- order detail lookup

  /**
   * The fee lookup of `get_order_detail`: by order number when one is given,
   * otherwise by waybill number; neither given is a parameter error. Assembling
   * the detail payload is not modelled.
   */
  function GetOrderDetailFee(t: FeeTable, orderId: Option<string>, pathId: Option<string>): (r: (Kind, Option<Fee>))
    ensures r.0 == Success || r.0 == NotFound || r.0 == ParamError
    ensures r.0 == ParamError <==> !Truthy(orderId) && !Truthy(pathId)
    ensures r.0 == Success <==> r.1.Some?
    ensures r.0 == Success && Truthy(orderId) ==> r.1.value in t && r.1.value.orderId == orderId.value
    ensures r.0 == Success && !Truthy(orderId) ==> r.1.value in t && r.1.value.pathId == pathId.value
    ensures r.0 == Success && Truthy(orderId) ==>
      exists k :: 0 <= k < |t| && t[k] == r.1.value && forall j :: 0 <= j < k ==> t[j].orderId != orderId.value
    ensures r.0 == Success && !Truthy(orderId) ==>
      exists k :: 0 <= k < |t| && t[k] == r.1.value && forall j :: 0 <= j < k ==> t[j].pathId != pathId.value
    ensures Truthy(orderId) && r.0 == NotFound ==> forall i :: 0 <= i < |t| ==> t[i].orderId != orderId.value
    ensures !Truthy(orderId) && r.0 == NotFound ==> forall i :: 0 <= i < |t| ==> t[i].pathId != pathId.value
  {
    if !Truthy(orderId) && !Truthy(pathId) then
      (ParamError, None)
    else
      var k :=
        if Truthy(orderId) then Tables.FirstIndex(t, (f: Fee) => f.orderId == orderId.value)
        else Tables.FirstIndex(t, (f: Fee) => f.pathId == pathId.value);
      match k
      case None => (NotFound, None)
      case Some(i) => (Success, Some(t[i]))
  }

  /** The order number takes precedence: a given waybill number is ignored whenever an order number is given. */
  lemma OrderIdTakesPrecedence(t: FeeTable, orderId: string, pathA: Option<string>, pathB: Option<string>)
    requires orderId != ""
    ensures GetOrderDetailFee(t, Some(orderId), pathA) == GetOrderDetailFee(t, Some(orderId), pathB)
  {
  }
}
