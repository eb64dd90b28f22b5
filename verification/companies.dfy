/**
 * The company endpoints of api/company.py: read one company, and replace its
 * administrator's name, phone and password. The record follows the
 * attributes those handlers read and write.
 */
module Companies {
  import opened Wrappers
  import opened Text
  import opened Validation
  import opened Enums
  import opened Times
  import opened Responses

  datatype Company = Company(
    companyId: string,
    companyName: string,
    inviteCode: string,
    operatorType: OperatorType,
    administratorName: string,
    administratorPhone: string,
    administratorPassword: string,
    createdAt: Time,
    updatedAt: Time)

  /** Companies by `company_id`, the primary key. */
  type CompanyStore = map<string, Company>

  /** `get_company`: the stored record, or not-found. */
  function GetCompany(cs: CompanyStore, companyId: string): (r: (Kind, Option<Company>))
    ensures r.0 == NotFound <==> companyId !in cs
    ensures r.0 == NotFound || r.0 == Success
    ensures r.0 == NotFound ==> r.1 == None
    ensures r.0 == Success ==> r.1 == Some(cs[companyId])
  {
    if companyId in cs then (Success, Some(cs[companyId])) else (NotFound, None)
  }

  datatype AdminUpdate = AdminUpdate(administratorName: string, administratorPhone: string, administratorPassword: string)

  /** The field checks of the update, in the order the handler runs them; phone format is checked on the raw input. */
  predicate AdminFieldsValid(u: AdminUpdate) {
    && !IsBlank(u.administratorName)
    && !IsBlank(u.administratorPhone)
    && !IsBlank(u.administratorPassword)
    && ValidatePhone(u.administratorPhone)
  }

  /**
   * `update_company_admin_info`: look the company up first, then check the
   * three fields, then store them stripped and stamp `updated_at`.
   */
  function UpdateCompanyAdminInfo(cs: CompanyStore, companyId: string, u: AdminUpdate, now: Time): (r: Outcome<CompanyStore>)
    ensures r.kind == NotFound <==> companyId !in cs
    ensures r.kind == ParamError <==> companyId in cs && !AdminFieldsValid(u)
    ensures r.kind == Success <==> companyId in cs && AdminFieldsValid(u)
    ensures r.kind != Success ==> r.state == cs
    ensures r.state.Keys == cs.Keys
    ensures forall id :: id in cs && id != companyId ==> r.state[id] == cs[id]
    ensures r.kind == Success ==>
      var c := r.state[companyId];
      && c.administratorName == Strip(u.administratorName)
      && c.administratorPhone == Strip(u.administratorPhone)
      && c.administratorPassword == Strip(u.administratorPassword)
      && c.updatedAt == now
      && c.(administratorName := cs[companyId].administratorName,
            administratorPhone := cs[companyId].administratorPhone,
            administratorPassword := cs[companyId].administratorPassword,
            updatedAt := cs[companyId].updatedAt) == cs[companyId]
  {
    if companyId !in cs then
      Outcome(NotFound, cs)
    else if IsBlank(u.administratorName) || IsBlank(u.administratorPhone) || IsBlank(u.administratorPassword) then
      Outcome(ParamError, cs)
    else if !ValidatePhone(u.administratorPhone) then
      Outcome(ParamError, cs)
    else
      var c := cs[companyId].(
        administratorName := Strip(u.administratorName),
        administratorPhone := Strip(u.administratorPhone),
        administratorPassword := Strip(u.administratorPassword),
        updatedAt := now);
      Outcome(Success, cs[companyId := c])
  }

  /**
   * Reading a company back after an update: it is not found exactly when the
   * update was, shows the stripped administrator fields and the update's
   * instant after a success, and is as before after a refused update.
   */
  lemma GetAfterUpdate(cs: CompanyStore, companyId: string, u: AdminUpdate, now: Time)
    ensures var r := UpdateCompanyAdminInfo(cs, companyId, u, now);
      var g := GetCompany(r.state, companyId);
      && (g.0 == NotFound <==> r.kind == NotFound)
      && (r.kind != Success ==> g == GetCompany(cs, companyId))
      && (r.kind == Success ==>
            && g.0 == Success
            && g.1.value.administratorName == Strip(u.administratorName)
            && g.1.value.administratorPhone == Strip(u.administratorPhone)
            && g.1.value.administratorPassword == Strip(u.administratorPassword)
            && g.1.value.updatedAt == now
            && g.1.value.companyName == cs[companyId].companyName
            && g.1.value.inviteCode == cs[companyId].inviteCode
            && g.1.value.createdAt == cs[companyId].createdAt)
  {
  }

  /** Existence is checked before the fields: an unknown company is not-found even for an all-blank update. */
  lemma UnknownCompanyBeforeValidation(cs: CompanyStore, companyId: string, now: Time)
    requires companyId !in cs
    ensures UpdateCompanyAdminInfo(cs, companyId, AdminUpdate("", "", ""), now).kind == NotFound
  {
  }

  /** After a successful update the stored administrator phone is a valid mobile number with no surrounding whitespace. */
  lemma StoredAdminPhoneIsValid(cs: CompanyStore, companyId: string, u: AdminUpdate, now: Time)
    requires companyId in cs && AdminFieldsValid(u)
    ensures var p := UpdateCompanyAdminInfo(cs, companyId, u, now).state[companyId].administratorPhone;
      ValidatePhone(p) && Strip(p) == p
  {
    StripValidPhone(u.administratorPhone);
    StripIdempotent(u.administratorPhone);
  }

  /** An update that would write back exactly what is stored leaves the store as it is. */
  lemma UpdateWithStoredValues(cs: CompanyStore, companyId: string, u: AdminUpdate, now: Time)
    requires companyId in cs && AdminFieldsValid(u)
    requires cs[companyId].administratorName == Strip(u.administratorName)
    requires cs[companyId].administratorPhone == Strip(u.administratorPhone)
    requires cs[companyId].administratorPassword == Strip(u.administratorPassword)
    requires cs[companyId].updatedAt == now
    ensures UpdateCompanyAdminInfo(cs, companyId, u, now) == Outcome(Success, cs)
  {
    var r := UpdateCompanyAdminInfo(cs, companyId, u, now);
    var c, d := cs[companyId], r.state[companyId];
    assert d == d.(administratorName := c.administratorName, administratorPhone := c.administratorPhone,
                   administratorPassword := c.administratorPassword, updatedAt := c.updatedAt);
    assert r.state == cs;
  }

  /** Repeating a successful update at the same instant succeeds again and changes nothing. */
  lemma UpdateAdminIdempotent(cs: CompanyStore, companyId: string, u: AdminUpdate, now: Time)
    requires companyId in cs && AdminFieldsValid(u)
    ensures var cs1 := UpdateCompanyAdminInfo(cs, companyId, u, now).state;
      UpdateCompanyAdminInfo(cs1, companyId, u, now) == Outcome(Success, cs1)
  {
    var cs1 := UpdateCompanyAdminInfo(cs, companyId, u, now).state;
    UpdateWithStoredValues(cs1, companyId, u, now);
  }
}
