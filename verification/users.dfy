/**
 * The employee registry of api/user.py: add, list, update and soft-delete.
 * Phone and job number are meant to be unique among employees that are not
 * deleted; every handler checks that before writing.
 */
module Users {
  import opened Wrappers
  import opened Text
  import opened Validation
  import opened Enums
  import opened Times
  import opened Responses
  import opened Companies
  import Tables

  /** A row of `users`; `permissions` is the decoded JSON list. */
  datatype User = User(
    userId: string,
    nickName: string,
    phone: string,
    jobNumber: string,
    position: string,
    permissions: seq<string>,
    registered: bool,
    operatorType: OperatorType,
    isDeleted: bool,
    companyId: string,
    createdAt: Time,
    updatedAt: Time)

  /** Rows of `users` in scan order. */
  type UserTable = seq<User>

  predicate Live(u: User) {
    !u.isDeleted
  }

  function UserIds(t: UserTable): set<string> {
    set i | 0 <= i < |t| :: t[i].userId
  }

  /** `user_id` is the primary key. */
  predicate UniqueUserIds(t: UserTable) {
    forall i, j :: 0 <= i < j < |t| ==> t[i].userId != t[j].userId
  }

  /** No two live employees share a phone or a job number. */
  predicate LiveContactsUnique(t: UserTable) {
    forall i, j :: 0 <= i < j < |t| && Live(t[i]) && Live(t[j]) ==>
      t[i].phone != t[j].phone && t[i].jobNumber != t[j].jobNumber
  }

  /** A live employee other than `except` holds `phone` (the conflict query is truthy). */
  predicate PhoneInUse(t: UserTable, phone: string, except: Option<string>) {
    exists i :: 0 <= i < |t| && Live(t[i]) && t[i].phone == phone && (except.Some? ==> t[i].userId != except.value)
  }

  /** A live employee other than `except` holds `jobNumber`. */
  predicate JobNumberInUse(t: UserTable, jobNumber: string, except: Option<string>) {
    exists i :: 0 <= i < |t| && Live(t[i]) && t[i].jobNumber == jobNumber && (except.Some? ==> t[i].userId != except.value)
  }

  datatype CreateRequest = CreateRequest(
    nickName: string, phone: string, jobNumber: string, position: string,
    permissions: seq<string>, companyId: string)

  /** The field checks `create_user` runs before touching the database. */
  predicate CreateFieldsValid(req: CreateRequest) {
    && !IsBlank(req.nickName) && !IsBlank(req.phone) && !IsBlank(req.jobNumber)
    && !IsBlank(req.companyId) && req.position != ""
    && ValidatePhone(req.phone)
  }

  /**
   * The row `create_user` inserts: stripped name, phone and job number, the
   * raw position and company id, not registered, a `CLIENT` operator. An
   * empty permission list leaves the column at its default `"[]"`, which
   * reads back as the same empty list.
   */
  function NewUser(id: string, req: CreateRequest, now: Time): User {
    User(id, Strip(req.nickName), Strip(req.phone), Strip(req.jobNumber), req.position,
         req.permissions, false, Client, false, req.companyId, now, now)
  }

  /**
   * `create_user`, with the values its two conflict queries compare against
   * as parameters. `freshId` is the generated uuid; a collision fails the commit.
   */
  function CreateUserChecking(t: UserTable, cs: CompanyStore, req: CreateRequest, freshId: string, now: Time,
                              phoneKey: string, jobKey: string): (r: Outcome<UserTable>)
    ensures !CreateFieldsValid(req) ==> r.kind == ParamError
    ensures r.kind == NotFound <==> CreateFieldsValid(req) && req.companyId !in cs
    ensures r.kind == Success <==>
      && CreateFieldsValid(req) && req.companyId in cs
      && !PhoneInUse(t, phoneKey, None) && !JobNumberInUse(t, jobKey, None)
      && freshId !in UserIds(t)
    ensures r.kind != Success ==> r.state == t
    ensures r.kind == Success ==> r.state == t + [NewUser(freshId, req, now)]
    ensures UniqueUserIds(t) ==> UniqueUserIds(r.state)
  {
    if !CreateFieldsValid(req) then Outcome(ParamError, t)
    else if req.companyId !in cs then Outcome(NotFound, t)
    else if PhoneInUse(t, phoneKey, None) then Outcome(ParamError, t)
    else if JobNumberInUse(t, jobKey, None) then Outcome(ParamError, t)
    else if freshId in UserIds(t) then Outcome(InternalError, t)
    else
      assert forall i :: 0 <= i < |t| ==> t[i].userId in UserIds(t);
      Outcome(Success, t + [NewUser(freshId, req, now)])
  }

  /** `create_user` as written: the conflict queries compare the unstripped phone and job number. */
  function CreateUserAsWritten(t: UserTable, cs: CompanyStore, req: CreateRequest, freshId: string, now: Time): (r: Outcome<UserTable>)
    ensures r.kind == Success <==>
      && CreateFieldsValid(req) && req.companyId in cs
      && !PhoneInUse(t, req.phone, None) && !JobNumberInUse(t, req.jobNumber, None)
      && freshId !in UserIds(t)
    ensures r.kind != Success ==> r.state == t
    ensures r.kind == Success ==> r.state == t + [NewUser(freshId, req, now)]
  {
    CreateUserChecking(t, cs, req, freshId, now, req.phone, req.jobNumber)
  }

  /**
   * The raw comparison misses a job number that differs from a live
   * employee's only by surrounding whitespace: the request passes, and in
   * this model, which leaves the unique column out, the stripped value stored
   * next to it duplicates that job number. The corrected handler refuses the
   * same request.
   */
  lemma CreateUserAsWrittenDuplicatesJobNumber(t: UserTable, cs: CompanyStore, req: CreateRequest, freshId: string, now: Time, k: nat)
    requires CreateFieldsValid(req) && req.companyId in cs && freshId !in UserIds(t)
    requires !PhoneInUse(t, req.phone, None) && !JobNumberInUse(t, req.jobNumber, None)
    requires k < |t| && Live(t[k]) && t[k].jobNumber == Strip(req.jobNumber)
    ensures CreateUserAsWritten(t, cs, req, freshId, now).kind == Success
    ensures !LiveContactsUnique(CreateUserAsWritten(t, cs, req, freshId, now).state)
    ensures CreateUser(t, cs, req, freshId, now).kind == ParamError
  {
    var s := CreateUserAsWritten(t, cs, req, freshId, now).state;
    assert s[k] == t[k] && s[|t|] == NewUser(freshId, req, now);
    assert JobNumberInUse(t, Strip(req.jobNumber), None) by {
      assert Live(t[k]) && t[k].jobNumber == Strip(req.jobNumber);
    }
  }

  /** `" E001".strip()` is `"E001"`. */
  lemma SampleJobNumberStrips()
    ensures Strip(" E001") == "E001"
  {
    var job := " E001";
    assert LeadCount(job) == 1 by {
      assert job[1..] == "E001";
      assert !IsSpace('E');
    }
    assert job[1..] == "E001";
    assert TrailCount("E001") == 0 by {
      assert !IsSpace('1');
    }
  }

  /** The request of the counterexample below passes every field check, and its job number strips to `"E001"`. */
  lemma SampleRequestFields()
    ensures CreateFieldsValid(CreateRequest("Wang", "13912345678", " E001", "1", [], "c1"))
    ensures Strip(" E001") == "E001"
  {
    SampleJobNumberStrips();
    assert ValidatePhone("13912345678") by {
      ValidatePhoneAcceptsMobileNumbers('3', "912345678");
      assert ['1', '3'] + "912345678" == "13912345678";
    }
    assert !IsBlank("Wang") by { assert !IsSpace("Wang"[0]); }
    assert !IsBlank("13912345678") by { assert !IsSpace("13912345678"[0]); }
    assert !IsBlank(" E001") by { assert !IsSpace(" E001"[1]); }
    assert !IsBlank("c1") by { assert !IsSpace("c1"[0]); }
  }

  /** Such a request exists: job number `" E001"` next to a live employee holding `"E001"`. */
  lemma LeadingSpaceJobNumberPassesRawCheck()
    ensures var t := [User("u1", "Li", "13812345678", "E001", "1", [], false, Client, false, "c1", 0, 0)];
      var req := CreateRequest("Wang", "13912345678", " E001", "1", [], "c1");
      && CreateFieldsValid(req)
      && !PhoneInUse(t, req.phone, None) && !JobNumberInUse(t, req.jobNumber, None)
      && Live(t[0]) && t[0].jobNumber == Strip(req.jobNumber)
      && LiveContactsUnique(t)
  {
    SampleRequestFields();
    var t := [User("u1", "Li", "13812345678", "E001", "1", [], false, Client, false, "c1", 0, 0)];
    assert "13812345678" != "13912345678" by { assert "13812345678"[2] != "13912345678"[2]; }
    assert "E001" != " E001" by { assert |"E001"| != |" E001"|; }
  }

  /**
   * `create_user` with the conflict queries comparing the values it stores.
   * No live employee then ends up sharing a phone or job number, and the
   * stored phone is a valid number.
   */
  function CreateUser(t: UserTable, cs: CompanyStore, req: CreateRequest, freshId: string, now: Time): (r: Outcome<UserTable>)
    ensures !CreateFieldsValid(req) ==> r.kind == ParamError
    ensures r.kind == NotFound <==> CreateFieldsValid(req) && req.companyId !in cs
    ensures r.kind == Success <==>
      && CreateFieldsValid(req) && req.companyId in cs
      && !PhoneInUse(t, Strip(req.phone), None) && !JobNumberInUse(t, Strip(req.jobNumber), None)
      && freshId !in UserIds(t)
    ensures r.kind != Success ==> r.state == t
    ensures r.kind == Success ==>
      && |r.state| == |t| + 1 && r.state[..|t|] == t
      && var u := r.state[|t|];
      && u.userId == freshId && u.nickName == Strip(req.nickName)
      && u.phone == Strip(req.phone) && u.jobNumber == Strip(req.jobNumber)
      && u.position == req.position && u.permissions == req.permissions && u.companyId == req.companyId
      && !u.registered && u.operatorType == Client && Live(u)
      && ValidatePhone(u.phone)
    ensures UniqueUserIds(t) ==> UniqueUserIds(r.state)
    ensures LiveContactsUnique(t) ==> LiveContactsUnique(r.state)
  {
    CreateUserChecked(t, cs, req, freshId, now);
    CreateUserChecking(t, cs, req, freshId, now, Strip(req.phone), Strip(req.jobNumber))
  }

  /** Checking the stored values keeps live contacts unique and stores a valid phone. */
  lemma CreateUserChecked(t: UserTable, cs: CompanyStore, req: CreateRequest, freshId: string, now: Time)
    ensures var r := CreateUserChecking(t, cs, req, freshId, now, Strip(req.phone), Strip(req.jobNumber));
      && (r.kind == Success ==> ValidatePhone(Strip(req.phone)))
      && (LiveContactsUnique(t) ==> LiveContactsUnique(r.state))
  {
    var r := CreateUserChecking(t, cs, req, freshId, now, Strip(req.phone), Strip(req.jobNumber));
    if r.kind == Success {
      StripValidPhone(req.phone);
      var u := NewUser(freshId, req, now);
      if LiveContactsUnique(t) {
        forall i | 0 <= i < |t| && Live(t[i])
          ensures t[i].phone != u.phone && t[i].jobNumber != u.jobNumber
        {
        }
      }
    }
  }

  /** A deleted employee's phone and job number pass the live-user conflict check for a new employee. */
  lemma DeletedContactsReusable(t: UserTable, userId: string)
    requires UniqueUserIds(t) && LiveContactsUnique(t)
    requires userId in UserIds(t) && Live(t[FindUser(t, userId).value])
    ensures var k := FindUser(t, userId).value;
      && !PhoneInUse(DeleteUser(t, userId).state, t[k].phone, None)
      && !JobNumberInUse(DeleteUser(t, userId).state, t[k].jobNumber, None)
  {
    var k := FindUser(t, userId).value;
    var s := DeleteUser(t, userId).state;
    forall i | 0 <= i < |s| && Live(s[i]) ensures s[i].phone != t[k].phone && s[i].jobNumber != t[k].jobNumber {
      assert i != k;
    }
  }

  datatype UserListRequest = UserListRequest(companyId: string, page: nat, size: nat, search: Option<string>)

  /** The WHERE clause of `get_user_list`: live employees of the company, with the name or job number containing the stripped search. */
  predicate UserListMatches(u: User, companyId: string, search: Option<string>) {
    && u.companyId == companyId && Live(u)
    && (search.Some? && !IsBlank(search.value) ==>
          Contains(u.nickName, Strip(search.value)) || Contains(u.jobNumber, Strip(search.value)))
  }

  /** `ORDER BY created_at DESC` */
  function UserCreatedAtKey(u: User): int {
    u.createdAt
  }

  /** `get_user_list`: the company id must be non-blank and name a company; then one page of its live employees, newest first. */
  function GetUserList(t: UserTable, cs: CompanyStore, req: UserListRequest): (r: (Kind, Option<Tables.PageOf<User>>))
    requires req.page >= 1 && req.size >= 1
    ensures r.0 == ParamError <==> IsBlank(req.companyId)
    ensures r.0 == NotFound <==> !IsBlank(req.companyId) && req.companyId !in cs
    ensures r.0 == Success <==> !IsBlank(req.companyId) && req.companyId in cs
    ensures r.0 != Success ==> r.1 == None
    ensures r.0 == Success ==>
      && r.1.Some?
      && var p := r.1.value;
      && p.page == req.page && p.size == req.size
      && p.total == |Tables.Filter(t, (u: User) => UserListMatches(u, req.companyId, req.search))|
      && p.totalPages * req.size >= p.total && (p.totalPages > 0 ==> (p.totalPages - 1) * req.size < p.total)
      && p.items == Tables.Page(Tables.Listing(t, (u: User) => UserListMatches(u, req.companyId, req.search), UserCreatedAtKey), req.page, req.size)
      && |p.items| == (if p.total <= Tables.Offset(req.page, req.size) then 0
                       else if p.total - Tables.Offset(req.page, req.size) >= req.size then req.size
                       else p.total - Tables.Offset(req.page, req.size))
      && |p.items| <= req.size
      && (forall i :: 0 <= i < |p.items| ==> p.items[i] in t && Live(p.items[i]) && p.items[i].companyId == req.companyId)
      && (forall i :: 0 <= i < |p.items| ==> UserListMatches(p.items[i], req.companyId, req.search))
      && (forall i, j :: 0 <= i < j < |p.items| ==> p.items[i].createdAt >= p.items[j].createdAt)
  {
    if IsBlank(req.companyId) then (ParamError, None)
    else if req.companyId !in cs then (NotFound, None)
    else
      var page := Tables.ListPage(t, (u: User) => UserListMatches(u, req.companyId, req.search),
                                  UserCreatedAtKey, req.page, req.size);
      (Success, Some(page))
  }

  datatype UpdateRequest = UpdateRequest(
    userId: string, nickName: string, phone: string, jobNumber: string, position: string,
    permissions: seq<string>)

  /** The field checks `update_user` runs before touching the database. */
  predicate UpdateFieldsValid(req: UpdateRequest) {
    && req.userId != ""
    && !IsBlank(req.nickName) && !IsBlank(req.phone) && !IsBlank(req.jobNumber)
    && req.position != ""
    && ValidatePhone(req.phone)
  }

  /** `select(User).where(User.user_id == id, User.is_deleted == False).first()` */
  function FindLiveUser(t: UserTable, userId: string): (r: Option<nat>)
    ensures r.None? <==> forall i :: 0 <= i < |t| ==> !(t[i].userId == userId && Live(t[i]))
    ensures r.Some? ==> r.value < |t| && t[r.value].userId == userId && Live(t[r.value])
    ensures r.Some? ==> forall j :: 0 <= j < r.value ==> !(t[j].userId == userId && Live(t[j]))
  {
    Tables.FirstIndex(t, (u: User) => u.userId == userId && Live(u))
  }

  /**
   * `update_user`: validate, find the live employee, check its company, check
   * the stripped phone and job number against every other live employee,
   * then overwrite the four fields and replace the permission list whole (an
   * empty list clears it). `updated_at` is not touched.
   */
  function UpdateUser(t: UserTable, cs: CompanyStore, req: UpdateRequest): (r: Outcome<UserTable>)
    ensures !UpdateFieldsValid(req) ==> r.kind == ParamError
    ensures r.kind == NotFound <==>
      UpdateFieldsValid(req) && (FindLiveUser(t, req.userId).None? || t[FindLiveUser(t, req.userId).value].companyId !in cs)
    ensures r.kind == Success <==>
      && UpdateFieldsValid(req) && FindLiveUser(t, req.userId).Some?
      && t[FindLiveUser(t, req.userId).value].companyId in cs
      && !PhoneInUse(t, Strip(req.phone), Some(req.userId))
      && !JobNumberInUse(t, Strip(req.jobNumber), Some(req.userId))
    ensures r.kind != Success ==> r.state == t
    ensures |r.state| == |t|
    ensures r.kind == Success ==>
      var k := FindLiveUser(t, req.userId).value;
      && r.state[k] == t[k].(nickName := Strip(req.nickName), phone := Strip(req.phone),
                             jobNumber := Strip(req.jobNumber), position := req.position,
                             permissions := req.permissions)
      && (forall i :: 0 <= i < |t| && i != k ==> r.state[i] == t[i])
    ensures UniqueUserIds(t) ==> UniqueUserIds(r.state)
    ensures UniqueUserIds(t) && LiveContactsUnique(t) ==> LiveContactsUnique(r.state)
  {
    if !UpdateFieldsValid(req) then Outcome(ParamError, t)
    else
      match FindLiveUser(t, req.userId)
      case None => Outcome(NotFound, t)
      case Some(k) =>
        if t[k].companyId !in cs then Outcome(NotFound, t)
        else if PhoneInUse(t, Strip(req.phone), Some(req.userId)) then Outcome(ParamError, t)
        else if JobNumberInUse(t, Strip(req.jobNumber), Some(req.userId)) then Outcome(ParamError, t)
        else
          var u := t[k].(nickName := Strip(req.nickName), phone := Strip(req.phone),
                         jobNumber := Strip(req.jobNumber), position := req.position,
                         permissions := req.permissions);
          UpdatePreserves(t, k, u);
          Outcome(Success, t[k := u])
  }

  /** Overwriting a row with contacts no other live employee holds keeps both invariants. */
  lemma UpdatePreserves(t: UserTable, k: nat, u: User)
    requires k < |t| && u.userId == t[k].userId
    requires !PhoneInUse(t, u.phone, Some(u.userId)) && !JobNumberInUse(t, u.jobNumber, Some(u.userId))
    ensures UniqueUserIds(t) ==> UniqueUserIds(t[k := u])
    ensures UniqueUserIds(t) && LiveContactsUnique(t) ==> LiveContactsUnique(t[k := u])
  {
    var s := t[k := u];
    assert forall i :: 0 <= i < |s| ==> s[i].userId == t[i].userId;
    if UniqueUserIds(t) && LiveContactsUnique(t) {
      forall i | 0 <= i < |t| && i != k && Live(t[i])
        ensures t[i].phone != u.phone && t[i].jobNumber != u.jobNumber
      {
        assert t[i].userId != u.userId;
      }
    }
  }

  /** A live employee's own phone and job number are held by no other live employee, and the live lookup finds its row. */
  lemma OwnContactsFree(t: UserTable, k: nat)
    requires UniqueUserIds(t) && LiveContactsUnique(t)
    requires k < |t| && Live(t[k])
    ensures FindLiveUser(t, t[k].userId) == Some(k)
    ensures !PhoneInUse(t, t[k].phone, Some(t[k].userId))
    ensures !JobNumberInUse(t, t[k].jobNumber, Some(t[k].userId))
  {
    var f := FindLiveUser(t, t[k].userId);
    assert f.Some? && t[f.value].userId == t[k].userId;
    forall i | 0 <= i < |t| && Live(t[i]) && (t[i].phone == t[k].phone || t[i].jobNumber == t[k].jobNumber)
      ensures t[i].userId == t[k].userId
    {
      assert i == k;
    }
  }

  /** Re-submitting an employee's own phone and job number is not a conflict: the checks exclude the employee itself. */
  lemma UpdateKeepsOwnContacts(t: UserTable, cs: CompanyStore, req: UpdateRequest, k: nat)
    requires UniqueUserIds(t) && LiveContactsUnique(t)
    requires UpdateFieldsValid(req)
    requires k < |t| && t[k].userId == req.userId && Live(t[k]) && t[k].companyId in cs
    requires Strip(req.phone) == t[k].phone && Strip(req.jobNumber) == t[k].jobNumber
    ensures UpdateUser(t, cs, req).kind == Success
  {
    OwnContactsFree(t, k);
  }

  /** `db.get(User, user_id)`: the row with that key, deleted or not. */
  function FindUser(t: UserTable, userId: string): (r: Option<nat>)
    ensures r.None? <==> userId !in UserIds(t)
    ensures r.Some? ==> r.value < |t| && t[r.value].userId == userId
    ensures r.Some? ==> forall i :: 0 <= i < r.value ==> t[i].userId != userId
  {
    var r := Tables.FirstIndex(t, (u: User) => u.userId == userId);
    assert r.None? ==> userId !in UserIds(t);
    r
  }

  /** `delete_user`: mark the row deleted; the record stays and nothing else about it changes. */
  function DeleteUser(t: UserTable, userId: string): (r: Outcome<UserTable>)
    ensures r.kind == NotFound <==> userId !in UserIds(t)
    ensures r.kind == Success <==> userId in UserIds(t)
    ensures r.kind != Success ==> r.state == t
    ensures |r.state| == |t|
    ensures r.kind == Success ==>
      var k := FindUser(t, userId).value;
      && !Live(r.state[k]) && r.state[k].(isDeleted := t[k].isDeleted) == t[k]
      && (forall i :: 0 <= i < |t| && i != k ==> r.state[i] == t[i])
    ensures UniqueUserIds(t) ==> UniqueUserIds(r.state)
    ensures LiveContactsUnique(t) ==> LiveContactsUnique(r.state)
  {
    match FindUser(t, userId)
    case None => Outcome(NotFound, t)
    case Some(k) =>
      var s := t[k := t[k].(isDeleted := true)];
      assert forall i :: 0 <= i < |s| ==> s[i].userId == t[i].userId;
      assert forall i :: 0 <= i < |s| && Live(s[i]) ==> Live(t[i]) && s[i] == t[i];
      Outcome(Success, s)
  }

  /** Deleting an already deleted employee succeeds again and changes nothing. */
  lemma DeleteTwice(t: UserTable, userId: string)
    requires DeleteUser(t, userId).kind == Success
    ensures var s := DeleteUser(t, userId).state;
      DeleteUser(s, userId) == Outcome(Success, s)
  {
    var s := DeleteUser(t, userId).state;
    var k := FindUser(t, userId).value;
    assert userId in UserIds(s) by {
      assert s[k].userId == userId;
    }
    assert forall i :: 0 <= i < |s| ==> s[i].userId == t[i].userId;
    assert FindUser(s, userId).value == k;
    assert s[k := s[k].(isDeleted := true)] == s;
  }

  /** A deleted employee can no longer be updated: the update's lookup skips deleted rows. */
  lemma UpdateDeletedUserNotFound(t: UserTable, cs: CompanyStore, req: UpdateRequest)
    requires UpdateFieldsValid(req)
    requires forall i :: 0 <= i < |t| && t[i].userId == req.userId ==> !Live(t[i])
    ensures UpdateUser(t, cs, req).kind == NotFound
  {
  }

  /** A deleted employee no longer appears in the employee list. */
  lemma DeletedUserNotListed(t: UserTable, cs: CompanyStore, userId: string, req: UserListRequest)
    requires UniqueUserIds(t) && req.page >= 1 && req.size >= 1
    requires DeleteUser(t, userId).kind == Success
    ensures var r := GetUserList(DeleteUser(t, userId).state, cs, req);
      r.0 == Success ==> forall i :: 0 <= i < |r.1.value.items| ==> r.1.value.items[i].userId != userId
  {
    var s := DeleteUser(t, userId).state;
    var r := GetUserList(s, cs, req);
    if r.0 == Success {
      var k := FindUser(t, userId).value;
      forall i | 0 <= i < |r.1.value.items| ensures r.1.value.items[i].userId != userId {
        var x := r.1.value.items[i];
        var j :| 0 <= j < |s| && s[j] == x;
        if j != k {
          assert s[j].userId == t[j].userId != t[k].userId;
        }
      }
    }
  }
}
