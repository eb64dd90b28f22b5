/**
 * The fee handlers run one after another over the same table, and their
 * outboxes handed to the connection registry. Each handler commits on its
 * own, so a run is the fold of the handlers' transitions.
 */
module Workflow {
  import opened Enums
  import opened Times
  import opened Responses
  import opened Fees
  import opened Effects
  import opened DriverApi
  import opened ClientApi
  import opened Connections

  /** One request to a state-changing fee endpoint. */
  datatype FeeOp =
    | Submit(submit: SubmitRequest, freshId: string, submitAt: Time)
    | Confirm(confirm: ConfirmRequest, confirmAt: Time)
    | Reject(reject: RejectRequest, rejectAt: Time)
    | Pay(feeId: string, payAt: Time)

  function Step(t: FeeTable, op: FeeOp): Transition<FeeTable> {
    match op
    case Submit(req, id, now) => SubmitDriverFee(t, req, id, now)
    case Confirm(req, now) => ConfirmFee(t, req, now)
    case Reject(req, now) => RejectFee(t, req, now)
    case Pay(id, now) => PayFee(t, id, now)
  }

  /** The table after every request of `ops` in turn, whatever each one replied. */
  function RunFees(t: FeeTable, ops: seq<FeeOp>): FeeTable
    decreases |ops|
  {
    if ops == [] then t else RunFees(Step(t, ops[0]).state, ops[1..])
  }

  /** Rows are never removed, ids stay unique, and `PENDING_SETTLEMENT` is never stored. */
  lemma {:induction false} RunKeepsInvariants(t: FeeTable, ops: seq<FeeOp>)
    requires UniqueIds(t) && NoPendingSettlement(t)
    ensures UniqueIds(RunFees(t, ops)) && NoPendingSettlement(RunFees(t, ops))
    ensures |RunFees(t, ops)| >= |t|
    decreases |ops|
  {
    if ops != [] {
      var t1 := Step(t, ops[0]).state;
      assert UniqueIds(t1) && NoPendingSettlement(t1) && |t1| >= |t| by {
        match ops[0]
        case Submit(req, id, now) =>
        case Confirm(req, now) =>
        case Reject(req, now) =>
        case Pay(id, now) =>
      }
      RunKeepsInvariants(t1, ops[1..]);
    }
  }

  /** Starting from an empty table, no fee ever holds `PENDING_SETTLEMENT`. */
  lemma PendingSettlementNeverStored(ops: seq<FeeOp>)
    ensures NoPendingSettlement(RunFees([], ops))
  {
    RunKeepsInvariants([], ops);
  }

  /** Some group of `roles` lists `c`. */
  predicate ListedUnder(reg: Registry, c: Conn, roles: set<Role>) {
    exists role :: role in roles && RoleKey(role) in reg && c in reg[RoleKey(role)]
  }

  /**
   * Hands an outbox to `send_message_to_type`, one push at a time, in push
   * order; `delivered` pairs each reached connection with the message.
   */
  function Deliver(reg: Registry, o: Outbox, failing: set<Conn>): (r: (Registry, seq<(Conn, Event)>))
    ensures Shrunk(reg, r.0)
    ensures forall i :: 0 <= i < |r.1| ==> ListedUnder(reg, r.1[i].0, Recipients(o)) && r.1[i].0 !in failing
    decreases |o|
  {
    if o == [] then
      (reg, [])
    else
      var p := SendMessageToType(reg, RoleKey(o[0].0), failing);
      var rest := Deliver(p.reg, o[1..], failing);
      var here := Attach(p.delivered, o[0].1);
      DeliverSteps(reg, o, failing, p.reg, p.delivered, rest.0, rest.1);
      (rest.0, here + rest.1)
  }

  /** Pairs every connection with the message `e`. */
  function Attach(cs: seq<Conn>, e: Event): (r: seq<(Conn, Event)>)
    ensures |r| == |cs|
    ensures forall i :: 0 <= i < |r| ==> r[i] == (cs[i], e)
  {
    seq(|cs|, i requires 0 <= i < |cs| => (cs[i], e))
  }

  /** The step of `Deliver`: the first push reaches its own group, the rest reach groups of the shrunk registry. */
  lemma DeliverSteps(reg: Registry, o: Outbox, failing: set<Conn>,
                     reg1: Registry, first: seq<Conn>, reg2: Registry, rest: seq<(Conn, Event)>)
    requires o != []
    requires Shrunk(reg, reg1) && Shrunk(reg1, reg2)
    requires RoleKey(o[0].0) in reg ==> forall x :: x in first ==> x in reg[RoleKey(o[0].0)] && x !in failing
    requires RoleKey(o[0].0) !in reg ==> first == []
    requires forall i :: 0 <= i < |rest| ==> ListedUnder(reg1, rest[i].0, Recipients(o[1..])) && rest[i].0 !in failing
    ensures Shrunk(reg, reg2)
    ensures var all := Attach(first, o[0].1) + rest;
      forall i :: 0 <= i < |all| ==> ListedUnder(reg, all[i].0, Recipients(o)) && all[i].0 !in failing
  {
    assert o[0].0 in Recipients(o);
    assert forall j :: 0 <= j < |o[1..]| ==> o[1..][j] == o[j + 1];
    assert Recipients(o[1..]) <= Recipients(o);
    var all := Attach(first, o[0].1) + rest;
    forall i | 0 <= i < |all| ensures ListedUnder(reg, all[i].0, Recipients(o)) && all[i].0 !in failing {
      if i < |first| {
        assert all[i].0 == first[i];
      } else {
        var c := rest[i - |first|].0;
        var role :| role in Recipients(o[1..]) && RoleKey(role) in reg1 && c in reg1[RoleKey(role)];
        assert c in reg[RoleKey(role)];
      }
    }
  }

  /**
   * A driver connection that is not also registered as platform or client
   * never sees a submission: `fee_submitted` goes to those two groups only.
   */
  lemma SubmissionNeverReachesDrivers(reg: Registry, t: FeeTable, req: SubmitRequest, freshId: string, now: Time,
                                      failing: set<Conn>, c: Conn)
    requires HasGroups(reg)
    requires c !in reg["platform"] && c !in reg["client"]
    ensures var d := Deliver(reg, SubmitDriverFee(t, req, freshId, now).outbox, failing).1;
      forall i :: 0 <= i < |d| ==> d[i].0 != c
  {
    var o := SubmitDriverFee(t, req, freshId, now).outbox;
    assert DriverGroup !in Recipients(o);
  }

  /** A rejection reaches driver connections only. */
  lemma RejectionReachesOnlyDrivers(reg: Registry, t: FeeTable, req: RejectRequest, now: Time,
                                    failing: set<Conn>, c: Conn)
    requires HasGroups(reg)
    requires c !in reg["driver"]
    ensures var d := Deliver(reg, RejectFee(t, req, now).outbox, failing).1;
      forall i :: 0 <= i < |d| ==> d[i].0 != c
  {
    var o := RejectFee(t, req, now).outbox;
    assert Recipients(o) <= {DriverGroup} by {
      if o != [] {
        assert o == [(DriverGroup, RejectedEvent(req))];
      }
    }
  }
}
