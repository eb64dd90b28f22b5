/**
 * The fee record (table `fees`) and the fee table as the handlers see it.
 * Money is integer cents.
 */
module Fees {
  import opened Wrappers
  import opened Enums
  import opened Times
  import Tables

  datatype Fee = Fee(
    feeId: string,
    createdAt: Time,
    updatedAt: Time,
    pathId: string,             // waybill number
    orderId: string,            // order number
    status: OrderStatus,
    totalPrice: int,
    driverFee: int,
    highwayFee: int,
    parkingFee: int,
    carryFee: int,
    waitFee: int,
    orderTime: Option<Time>,
    highwayBillImgs: Option<string>,
    parkingBillImgs: Option<string>,
    // attributes the handlers read and write although models/fee.py does not declare them
    settlementEnable: bool,
    billRejectReason: Option<string>,
    receiptRejectReason: Option<string>,
    companyId: Option<string>,
    driverAccountId: Option<string>,
    dispatchChannel: Option<string>,
    logisticsPlatform: Option<string>,
    receiptImgs: Option<string>)

  /**
   * `Fee(fee_id=feeId, path_id=pathId, order_id=orderId)`: every other column at
   * its declared default, the timestamps at `now`; the undeclared attributes
   * start unset.
   */
  function NewFee(feeId: string, pathId: string, orderId: string, now: Time): Fee {
    Fee(feeId, now, now, pathId, orderId, PendingPayment, 0, 0, 0, 0, 0, 0, Some(now), Some(""), Some(""),
        false, None, None, None, None, None, None, None)
  }

  /** The declared defaults of models/fee.py. */
  lemma NewFeeDefaults(feeId: string, pathId: string, orderId: string, now: Time)
    ensures var f := NewFee(feeId, pathId, orderId, now);
      && f.feeId == feeId && f.pathId == pathId && f.orderId == orderId
      && f.status == PendingPayment
      && f.totalPrice == 0 && f.driverFee == 0 && f.highwayFee == 0
      && f.parkingFee == 0 && f.carryFee == 0 && f.waitFee == 0
      && f.highwayBillImgs == Some("") && f.parkingBillImgs == Some("")
      && f.createdAt == f.updatedAt == now && f.orderTime == Some(now)
  {
  }

  /** Rows of `fees` in scan order. */
  type FeeTable = seq<Fee>

  /** `fee_id` is the primary key. */
  predicate UniqueIds(t: FeeTable) {
    forall i, j :: 0 <= i < j < |t| ==> t[i].feeId != t[j].feeId
  }

  function Ids(t: FeeTable): set<string> {
    set i | 0 <= i < |t| :: t[i].feeId
  }

  /** `select(Fee).where(Fee.fee_id == id).first()` */
  function FindById(t: FeeTable, id: string): (r: Option<nat>)
    ensures r.None? <==> id !in Ids(t)
    ensures r.Some? ==> r.value < |t| && t[r.value].feeId == id
    ensures r.Some? && UniqueIds(t) ==> forall i :: 0 <= i < |t| && t[i].feeId == id ==> i == r.value
  {
    var r := Tables.FirstIndex(t, (f: Fee) => f.feeId == id);
    assert r.None? ==> id !in Ids(t);
    r
  }

  /** `filter_by(order_id=orderId, path_id=pathId).first()` */
  function FindByOrderAndPath(t: FeeTable, orderId: string, pathId: string): (r: Option<nat>)
    ensures r.None? <==> forall i :: 0 <= i < |t| ==> !(t[i].orderId == orderId && t[i].pathId == pathId)
    ensures r.Some? ==> r.value < |t| && t[r.value].orderId == orderId && t[r.value].pathId == pathId
    ensures r.Some? ==> forall i :: 0 <= i < r.value ==> !(t[i].orderId == orderId && t[i].pathId == pathId)
  {
    Tables.FirstIndex(t, (f: Fee) => f.orderId == orderId && f.pathId == pathId)
  }

  /** The six money columns agree. */
  predicate SameAmounts(a: Fee, b: Fee) {
    && a.totalPrice == b.totalPrice && a.driverFee == b.driverFee
    && a.highwayFee == b.highwayFee && a.parkingFee == b.parkingFee
    && a.carryFee == b.carryFee && a.waitFee == b.waitFee
  }

  /** No stored fee carries the client-facing `PENDING_SETTLEMENT` value. */
  predicate NoPendingSettlement(t: FeeTable) {
    forall i :: 0 <= i < |t| ==> t[i].status != PendingSettlement
  }

  /** Writes `f` over row `k` and leaves every other row as it was. */
  function Replace(t: FeeTable, k: nat, f: Fee): (r: FeeTable)
    requires k < |t|
    ensures |r| == |t| && r[k] == f
    ensures forall i :: 0 <= i < |t| && i != k ==> r[i] == t[i]
    ensures f.feeId == t[k].feeId ==> Ids(r) == Ids(t)
    ensures f.feeId == t[k].feeId && UniqueIds(t) ==> UniqueIds(r)
  {
    var r := t[k := f];
    assert f.feeId == t[k].feeId ==> Ids(r) == Ids(t) by {
      if f.feeId == t[k].feeId {
        forall id | id in Ids(t) ensures id in Ids(r) {
          var i :| 0 <= i < |t| && t[i].feeId == id;
          assert r[i].feeId == id;
        }
      }
    }
    r
  }
}
