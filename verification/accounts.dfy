/**
 * Company accounts (table `company_accounts`) and the account endpoints of
 * api/client.py: request a recharge, approve it, and configure the balance
 * warning. Money is integer cents.
 */
module Accounts {
  import opened Wrappers
  import opened Enums
  import opened Times
  import opened Responses

  datatype Account = Account(
    companyAccountId: string,
    companyId: string,
    createdAt: Time,
    updatedAt: Time,
    companyAccountUpdatetime: Time,
    balance: int,
    warningVal: int,
    warningPhone: Option<string>,
    warningEnable: bool,
    rechargeStatus: RechargeStatus,
    rechargeTime: Option<Time>,
    rechargeName: Option<string>,
    rechargePhone: Option<string>,
    rechargeAmount: int,
    receivedAmount: int)

  /** `Account(company_account_id=id, company_id=companyId)` with every other column at its default. */
  function NewAccount(id: string, companyId: string, now: Time): Account {
    Account(id, companyId, now, now, now, 0, 0, None, false, UnderReview, None, None, None, 0, 0)
  }

  /** The declared defaults of models/account.py: nothing credited, nothing configured, already under review. */
  lemma NewAccountDefaults(id: string, companyId: string, now: Time)
    ensures var a := NewAccount(id, companyId, now);
      && a.companyAccountId == id && a.companyId == companyId
      && a.balance == 0 && a.rechargeAmount == 0 && a.receivedAmount == 0
      && a.warningVal == 0 && a.warningPhone == None && !a.warningEnable
      && a.rechargeStatus == UnderReview
  {
  }

  /** Accounts by `company_account_id`, the primary key. */
  type AccountStore = map<string, Account>

  /** Every account of `s` other than `id` is as in `s0`, and no account is added or removed. */
  predicate OthersUnchanged(s0: AccountStore, s: AccountStore, id: string) {
    s.Keys == s0.Keys && forall k :: k in s0 && k != id ==> s[k] == s0[k]
  }

  datatype RechargeRequest = RechargeRequest(companyAccountId: string, rechargeName: string, rechargePhone: string, rechargeAmount: int)

  /**
   * `recharge_fee`: records a recharge request and puts the account under
   * review. The balance and the received amount are not touched.
   */
  function RechargeFee(s: AccountStore, req: RechargeRequest, now: Time): (r: Outcome<AccountStore>)
    ensures r.kind == Success || r.kind == NotFound
    ensures r.kind == NotFound <==> req.companyAccountId !in s
    ensures r.kind == NotFound ==> r.state == s
    ensures r.state.Keys == s.Keys
    ensures r.kind == Success ==>
      var a := s[req.companyAccountId];
      var b := r.state[req.companyAccountId];
      && OthersUnchanged(s, r.state, req.companyAccountId)
      && b.rechargeStatus == UnderReview
      && b.rechargeAmount == req.rechargeAmount
      && b.rechargeName == Some(req.rechargeName) && b.rechargePhone == Some(req.rechargePhone)
      && b.rechargeTime == Some(now) && b.updatedAt == now
      && b.balance == a.balance && b.receivedAmount == a.receivedAmount
      && b.warningVal == a.warningVal && b.warningPhone == a.warningPhone && b.warningEnable == a.warningEnable
      && b.companyAccountUpdatetime == a.companyAccountUpdatetime
      && b.(rechargeStatus := a.rechargeStatus, updatedAt := a.updatedAt, rechargeTime := a.rechargeTime,
            rechargeAmount := a.rechargeAmount, rechargeName := a.rechargeName, rechargePhone := a.rechargePhone) == a
  {
    if req.companyAccountId !in s then
      Outcome(NotFound, s)
    else
      var a := s[req.companyAccountId];
      var b := a.(rechargeStatus := UnderReview, updatedAt := now, rechargeTime := Some(now),
                  rechargeAmount := req.rechargeAmount, rechargeName := Some(req.rechargeName),
                  rechargePhone := Some(req.rechargePhone));
      Outcome(Success, s[req.companyAccountId := b])
  }

  /**
   * `approve_recharge`: only an account under review is approved; approval
   * credits the received amount (not the requested amount) and marks it approved.
   */
  function ApproveRecharge(s: AccountStore, id: string, now: Time): (r: Outcome<AccountStore>)
    ensures r.kind == Success || r.kind == NotFound || r.kind == ParamError
    ensures r.kind == NotFound <==> id !in s
    ensures r.kind == Success <==> id in s && s[id].rechargeStatus == UnderReview
    ensures r.kind != Success ==> r.state == s
    ensures r.state.Keys == s.Keys
    ensures r.kind == Success ==>
      var a := s[id];
      var b := r.state[id];
      && OthersUnchanged(s, r.state, id)
      && b.balance == a.balance + a.receivedAmount
      && b.rechargeStatus == Approved
      && b.receivedAmount == a.receivedAmount && b.rechargeAmount == a.rechargeAmount
      && b.rechargeTime == Some(now) && b.updatedAt == now && b.companyAccountUpdatetime == now
      && b.warningVal == a.warningVal && b.warningPhone == a.warningPhone && b.warningEnable == a.warningEnable
      && b.(balance := a.balance, rechargeStatus := a.rechargeStatus, rechargeTime := a.rechargeTime,
            updatedAt := a.updatedAt, companyAccountUpdatetime := a.companyAccountUpdatetime) == a
  {
    if id !in s then
      Outcome(NotFound, s)
    else if s[id].rechargeStatus != UnderReview then
      Outcome(ParamError, s)
    else
      var a := s[id];
      var b := a.(balance := a.balance + a.receivedAmount, rechargeStatus := Approved,
                  rechargeTime := Some(now), updatedAt := now, companyAccountUpdatetime := now);
      Outcome(Success, s[id := b])
  }

  /** A second approval is refused and leaves the balance where the first one put it. */
  lemma ApproveTwiceRefused(s: AccountStore, id: string, now1: Time, now2: Time)
    requires ApproveRecharge(s, id, now1).kind == Success
    ensures var s1 := ApproveRecharge(s, id, now1).state;
      && ApproveRecharge(s1, id, now2).kind == ParamError
      && ApproveRecharge(s1, id, now2).state == s1
      && s1[id].balance == s[id].balance + s[id].receivedAmount
  {
  }

  /** A fresh account already passes the review guard, and approving it credits nothing. */
  lemma FreshAccountApproval(s: AccountStore, id: string, companyId: string, now: Time)
    requires s == map[id := NewAccount(id, companyId, now)]
    ensures ApproveRecharge(s, id, now).kind == Success
    ensures ApproveRecharge(s, id, now).state[id].balance == 0
  {
  }

  datatype WarningRequest = WarningRequest(companyAccountId: string, warningVal: int, warningPhone: string, warningEnable: bool)

  /** `update_balance_warning`: writes the three warning fields and the two update times, nothing else. */
  function UpdateBalanceWarning(s: AccountStore, req: WarningRequest, now: Time): (r: Outcome<AccountStore>)
    ensures r.kind == Success || r.kind == NotFound
    ensures r.kind == NotFound <==> req.companyAccountId !in s
    ensures r.kind == NotFound ==> r.state == s
    ensures r.state.Keys == s.Keys
    ensures r.kind == Success ==>
      var a := s[req.companyAccountId];
      var b := r.state[req.companyAccountId];
      && OthersUnchanged(s, r.state, req.companyAccountId)
      && b.warningVal == req.warningVal && b.warningPhone == Some(req.warningPhone)
      && b.warningEnable == req.warningEnable
      && b.updatedAt == now && b.companyAccountUpdatetime == now
      && b.(warningVal := a.warningVal, warningPhone := a.warningPhone, warningEnable := a.warningEnable,
            updatedAt := a.updatedAt, companyAccountUpdatetime := a.companyAccountUpdatetime) == a
  {
    if req.companyAccountId !in s then
      Outcome(NotFound, s)
    else
      var a := s[req.companyAccountId];
      var b := a.(warningVal := req.warningVal, warningPhone := Some(req.warningPhone),
                  warningEnable := req.warningEnable, updatedAt := now, companyAccountUpdatetime := now);
      Outcome(Success, s[req.companyAccountId := b])
  }

  /** The account endpoints, as requests against the store. */
  datatype AccountOp =
    | Recharge(req: RechargeRequest, now: Time)
    | Approve(id: string, now: Time)
    | Warn(wreq: WarningRequest, now: Time)

  function Apply(s: AccountStore, op: AccountOp): AccountStore {
    match op
    case Recharge(req, now) => RechargeFee(s, req, now).state
    case Approve(id, now) => ApproveRecharge(s, id, now).state
    case Warn(req, now) => UpdateBalanceWarning(s, req, now).state
  }

  function Run(s: AccountStore, ops: seq<AccountOp>): AccountStore
    decreases |ops|
  {
    if ops == [] then s else Run(Apply(s, ops[0]), ops[1..])
  }

  /** Every account's received amount. */
  predicate ReceivedAmounts(s: AccountStore, received: map<string, int>) {
    s.Keys == received.Keys && forall k :: k in s ==> s[k].receivedAmount == received[k]
  }

  /**
   * No endpoint writes `received_amount`, so over any run of requests every
   * received amount stays as it was; where all received amounts are 0 (their
   * default), approvals credit nothing and no balance ever changes.
   */
  lemma {:induction false} RunKeepsReceivedAmounts(s: AccountStore, ops: seq<AccountOp>, received: map<string, int>)
    requires ReceivedAmounts(s, received)
    ensures ReceivedAmounts(Run(s, ops), received)
    ensures (forall k :: k in received ==> received[k] == 0) ==>
      forall k :: k in s ==> Run(s, ops)[k].balance == s[k].balance
    decreases |ops|
  {
    if ops != [] {
      var s1 := Apply(s, ops[0]);
      assert ReceivedAmounts(s1, received);
      RunKeepsReceivedAmounts(s1, ops[1..], received);
      if forall k :: k in received ==> received[k] == 0 {
        assert forall k :: k in s ==> s1[k].balance == s[k].balance;
      }
    }
  }
}
