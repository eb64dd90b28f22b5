/**
 * The driver endpoints of api/driver.py: submit a fee claim, read it back,
 * confirm it, and list fees.
 */
module DriverApi {
  import opened Wrappers
  import opened Text
  import opened Enums
  import opened Times
  import opened Responses
  import opened Fees
  import opened Effects
  import Tables

  datatype SubmitRequest = SubmitRequest(
    driverId: string, orderId: string, pathId: string,
    highwayFee: int, parkingFee: int, carryFee: int, waitFee: int,
    highwayBillImgs: Option<string>, parkingBillImgs: Option<string>)

  /** `all([...])` over the seven required fields: every id non-empty and every amount non-zero. */
  predicate SubmitFieldsPresent(req: SubmitRequest) {
    && req.driverId != "" && req.orderId != "" && req.pathId != ""
    && req.highwayFee != 0 && req.parkingFee != 0 && req.carryFee != 0 && req.waitFee != 0
  }

  /** What a stored claim must hold after a submission of `req` under id `id` at `now`. */
  predicate RecordsSubmission(f: Fee, req: SubmitRequest, id: string, now: Time) {
    && f.feeId == id && f.orderId == req.orderId && f.pathId == req.pathId
    && f.highwayFee == req.highwayFee && f.parkingFee == req.parkingFee
    && f.carryFee == req.carryFee && f.waitFee == req.waitFee
    && f.highwayBillImgs == req.highwayBillImgs && f.parkingBillImgs == req.parkingBillImgs
    && f.orderTime == Some(now)
  }

  function SubmittedEvent(req: SubmitRequest, now: Time): Event {
    FeeSubmitted(req.driverId, req.orderId, req.pathId, req.highwayFee, req.parkingFee,
                 req.carryFee, req.waitFee, req.highwayBillImgs, req.parkingBillImgs, now)
  }

  /**
   * `submit_driver_fee`: validate, insert one new row, push `fee_submitted` to
   * the platform and client groups. `freshId` is the generated uuid; if it
   * collides with a stored key the commit fails and the reply is an internal error.
   */
  function SubmitDriverFee(t: FeeTable, req: SubmitRequest, freshId: string, now: Time): (r: Transition<FeeTable>)
    ensures r.kind == Success <==> SubmitFieldsPresent(req) && freshId !in Ids(t)
    ensures !SubmitFieldsPresent(req) ==> r.kind == ParamError
    ensures SubmitFieldsPresent(req) && freshId in Ids(t) ==> r.kind == InternalError
    ensures r.kind != Success ==> r.state == t && r.outbox == []
    ensures r.kind == Success ==>
      && |r.state| == |t| + 1 && r.state[..|t|] == t
      && RecordsSubmission(r.state[|t|], req, freshId, now)
      && r.outbox == [(PlatformGroup, SubmittedEvent(req, now)), (ClientGroup, SubmittedEvent(req, now))]
    ensures DriverGroup !in Recipients(r.outbox)
    ensures UniqueIds(t) ==> UniqueIds(r.state)
    ensures NoPendingSettlement(t) ==> NoPendingSettlement(r.state)
  {
    if !SubmitFieldsPresent(req) then
      Transition(ParamError, t, [])
    else if freshId in Ids(t) then
      Transition(InternalError, t, [])
    else
      var fee := NewFee(freshId, req.pathId, req.orderId, now).(
        highwayFee := req.highwayFee, parkingFee := req.parkingFee,
        carryFee := req.carryFee, waitFee := req.waitFee,
        highwayBillImgs := req.highwayBillImgs, parkingBillImgs := req.parkingBillImgs,
        orderTime := Some(now));
      var ev := SubmittedEvent(req, now);
      var o := [(PlatformGroup, ev), (ClientGroup, ev)];
      assert Recipients(o) == {PlatformGroup, ClientGroup} by {
        assert o[0].0 == PlatformGroup && o[1].0 == ClientGroup;
      }
      assert forall i :: 0 <= i < |t| ==> t[i].feeId in Ids(t);
      Transition(Success, t + [fee], o)
  }

  /**
   * The columns a submission does not supply keep their defaults: status
   * `PENDING_PAYMENT`, base price and driver fee 0, and no driver or company is
   * recorded (the request's `driver_id` is only pushed, never stored).
   */
  lemma SubmitKeepsDefaults(t: FeeTable, req: SubmitRequest, freshId: string, now: Time)
    requires SubmitDriverFee(t, req, freshId, now).kind == Success
    ensures var f := SubmitDriverFee(t, req, freshId, now).state[|t|];
      && f.status == PendingPayment && f.totalPrice == 0 && f.driverFee == 0
      && f.driverAccountId == None && f.companyId == None && !f.settlementEnable
      && f.createdAt == now
  {
  }

  /** Negative amounts pass the check: only zero amounts (Python falsy) are refused. */
  lemma SubmitAcceptsNegativeFees(t: FeeTable, req: SubmitRequest, freshId: string, now: Time)
    requires req.driverId != "" && req.orderId != "" && req.pathId != ""
    requires req.highwayFee < 0 && req.parkingFee < 0 && req.carryFee < 0 && req.waitFee < 0
    requires freshId !in Ids(t)
    ensures SubmitDriverFee(t, req, freshId, now).kind == Success
    ensures SubmitDriverFee(t, req, freshId, now).state[|t|].highwayFee < 0
  {
  }

  /** The body of `get_fee`'s reply: current amounts and the `except_*` copies. */
  datatype DriverView = DriverView(
    highwayFee: int, parkingFee: int, carryFee: int, waitFee: int,
    highwayBillImgs: Option<string>, parkingBillImgs: Option<string>,
    exceptHighwayFee: int, exceptParkingFee: int, exceptCarryFee: int, exceptWaitFee: int)

  /** `get_fee`: the first fee of the order and waybill; `driverId` is accepted and ignored. */
  function GetFee(t: FeeTable, orderId: string, pathId: string, driverId: string): (r: (Kind, Option<DriverView>))
    ensures r.0 == Success || r.0 == NotFound
    ensures r.0 == NotFound <==> FindByOrderAndPath(t, orderId, pathId).None?
    ensures r.0 == NotFound ==> r.1 == None
    ensures r.0 == Success ==> r.1.Some?
    ensures r.0 == Success ==>
      var f := t[FindByOrderAndPath(t, orderId, pathId).value];
      var v := r.1.value;
      && v.highwayFee == f.highwayFee && v.parkingFee == f.parkingFee
      && v.carryFee == f.carryFee && v.waitFee == f.waitFee
      && v.highwayBillImgs == f.highwayBillImgs && v.parkingBillImgs == f.parkingBillImgs
      && v.exceptHighwayFee == f.highwayFee && v.exceptParkingFee == f.parkingFee
      && v.exceptCarryFee == f.carryFee && v.exceptWaitFee == f.waitFee
  {
    match FindByOrderAndPath(t, orderId, pathId)
    case None => (NotFound, None)
    case Some(k) =>
      var f := t[k];
      (Success, Some(DriverView(f.highwayFee, f.parkingFee, f.carryFee, f.waitFee,
                                f.highwayBillImgs, f.parkingBillImgs,
                                f.highwayFee, f.parkingFee, f.carryFee, f.waitFee)))
  }

  datatype ConfirmRequest = ConfirmRequest(driverId: string, orderId: string, pathId: string)

  function ConfirmedEvent(req: ConfirmRequest, now: Time): Event {
    FeeConfirmed(req.driverId, req.orderId, req.pathId, now)
  }

  /**
   * `confirm_fee`: the first fee of the order and waybill is set to
   * `PENDING_PAYMENT`, whatever its status was, and `fee_confirmed` is pushed
   * to the platform and client groups. `now` is only the push's confirm time.
   */
  function ConfirmFee(t: FeeTable, req: ConfirmRequest, now: Time): (r: Transition<FeeTable>)
    ensures r.kind == Success || r.kind == ParamError || r.kind == NotFound
    ensures req.driverId == "" || req.orderId == "" || req.pathId == "" ==> r.kind == ParamError
    ensures r.kind == NotFound <==>
      req.driverId != "" && req.orderId != "" && req.pathId != ""
      && FindByOrderAndPath(t, req.orderId, req.pathId).None?
    ensures r.kind == Success <==>
      req.driverId != "" && req.orderId != "" && req.pathId != ""
      && FindByOrderAndPath(t, req.orderId, req.pathId).Some?
    ensures r.kind != Success ==> r.state == t && r.outbox == []
    ensures r.kind == Success ==>
      var k := FindByOrderAndPath(t, req.orderId, req.pathId).value;
      && |r.state| == |t|
      && r.state[k].status == PendingPayment
      && SameAmounts(r.state[k], t[k])
      && r.state[k].(status := t[k].status) == t[k]
      && (forall i :: 0 <= i < |t| && i != k ==> r.state[i] == t[i])
      && r.outbox == [(PlatformGroup, ConfirmedEvent(req, now)), (ClientGroup, ConfirmedEvent(req, now))]
    ensures DriverGroup !in Recipients(r.outbox)
    ensures UniqueIds(t) ==> UniqueIds(r.state)
    ensures NoPendingSettlement(t) ==> NoPendingSettlement(r.state)
  {
    if req.driverId == "" || req.orderId == "" || req.pathId == "" then
      Transition(ParamError, t, [])
    else
      match FindByOrderAndPath(t, req.orderId, req.pathId)
      case None => Transition(NotFound, t, [])
      case Some(k) =>
        var ev := ConfirmedEvent(req, now);
        var o := [(PlatformGroup, ev), (ClientGroup, ev)];
        assert Recipients(o) == {PlatformGroup, ClientGroup} by {
          assert o[0].0 == PlatformGroup && o[1].0 == ClientGroup;
        }
        Transition(Success, Replace(t, k, t[k].(status := PendingPayment)), o)
  }

  /**
   * The body `confirm_fee` replies with as written: `success_response("费用确认成功")`
   * passes the text as the first positional parameter, which is `data`, so
   * the message stays the default.
   */
  function ConfirmReplyAsWritten(): (r: JsonReply<string>)
    ensures r.statusCode == 200 && r.content.code == SUCCESS
    ensures r.content.message == "操作成功" && r.content.data == Some("费用确认成功")
  {
    SuccessResponse(Some("费用确认成功"))
  }

  /** The body every other handler builds for its success text: the text as the message, no payload. */
  function ConfirmReply(): (r: JsonReply<string>)
    ensures r.statusCode == 200 && r.content.code == SUCCESS
    ensures r.content.message == "费用确认成功" && r.content.data == None
  {
    SuccessResponse(message := "费用确认成功")
  }

  /** The two bodies differ: as written, the confirmation text is not the reply's message. */
  lemma ConfirmTextIsNotTheMessage()
    ensures ConfirmReplyAsWritten().content.message != ConfirmReply().content.message
    ensures ConfirmReplyAsWritten().content.data != ConfirmReply().content.data
  {
    assert "操作成功"[0] != "费用确认成功"[0];
  }

  /** Confirming reopens even a settled fee: its status returns to `PENDING_PAYMENT`. */
  lemma ConfirmReopensSettled(t: FeeTable, req: ConfirmRequest, now: Time, k: nat)
    requires req.driverId != "" && req.orderId != "" && req.pathId != ""
    requires FindByOrderAndPath(t, req.orderId, req.pathId) == Some(k)
    requires t[k].status == Settled
    ensures ConfirmFee(t, req, now).kind == Success
    ensures ConfirmFee(t, req, now).state[k].status == PendingPayment
  {
  }

  /**
   * The WHERE clause of `get_fee_list`: the raw status string compared with
   * the enum column, which takes it as a member's value or its name, and an
   * order-number substring.
   */
  predicate DriverListMatches(f: Fee, status: Option<string>, search: Option<string>) {
    && (Truthy(status) ==> status.value == OrderStatusValue(f.status) || status.value == OrderStatusName(f.status))
    && (search.Some? && !IsBlank(search.value) ==> Contains(f.orderId, Strip(search.value)))
  }

  /** `ORDER BY created_at DESC` */
  function CreatedAtKey(f: Fee): int {
    f.createdAt
  }

  /** `get_fee_list`: one page of the matching fees, newest first. */
  function GetFeeList(t: FeeTable, page: nat, size: nat, status: Option<string>, search: Option<string>): (r: Tables.PageOf<Fee>)
    requires page >= 1 && size >= 1
    ensures r.page == page && r.size == size
    ensures r.total == |Tables.Filter(t, (f: Fee) => DriverListMatches(f, status, search))|
    ensures r.totalPages * size >= r.total && (r.totalPages > 0 ==> (r.totalPages - 1) * size < r.total)
    ensures r.items == Tables.Page(Tables.Listing(t, (f: Fee) => DriverListMatches(f, status, search), CreatedAtKey), page, size)
    ensures |r.items| == if r.total <= Tables.Offset(page, size) then 0
                         else if r.total - Tables.Offset(page, size) >= size then size
                         else r.total - Tables.Offset(page, size)
    ensures |r.items| <= size
    ensures forall i :: 0 <= i < |r.items| ==> DriverListMatches(r.items[i], status, search) && r.items[i] in t
    ensures forall i, j :: 0 <= i < j < |r.items| ==> r.items[i].createdAt >= r.items[j].createdAt
  {
    Tables.ListPage(t, (f: Fee) => DriverListMatches(f, status, search), CreatedAtKey, page, size)
  }

  /**
   * A non-empty status filter selects exactly the fees whose status the
   * string stands for, as the value ("已结算") or as the name ("SETTLED").
   */
  lemma DriverStatusFilterExact(f: Fee, v: string)
    requires v != ""
    ensures DriverListMatches(f, Some(v), None) <==> OrderStatusLookup(v) == Some(f.status)
  {
    OrderStatusLookupIff(f.status, v);
  }

  /** A settled fee is listed under both spellings of its status, and under no other status's spellings. */
  lemma SettledListedByValueAndName(f: Fee, o: OrderStatus)
    requires f.status == Settled && o != Settled
    ensures DriverListMatches(f, Some("已结算"), None) && DriverListMatches(f, Some("SETTLED"), None)
    ensures !DriverListMatches(f, Some(OrderStatusValue(o)), None) && !DriverListMatches(f, Some(OrderStatusName(o)), None)
  {
  }

  /** A blank search and a missing status filter select every fee. */
  lemma DriverListNoFilter(f: Fee, search: string)
    requires IsBlank(search)
    ensures DriverListMatches(f, None, Some(search))
    ensures DriverListMatches(f, Some(""), None)
  {
  }
}
