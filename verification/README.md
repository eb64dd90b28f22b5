# Logistics fee settlement — a Dafny model

This project models the settlement core of a logistics backend. Drivers submit
the road fees of a waybill: highway, parking, loading and waiting fees. They
then confirm the fee and fetch it again. The platform rejects a fee, either
deducting from the bill or recording a receipt reason. The client raises a
"request settlement" flag and lists its settlements under a status alias.
Company accounts go through a recharge review: a request, an approval that
credits the received amount, and a balance-warning setting. Pushes fan out to
the three websocket groups: platform, client and driver. Around this sit a
soft-delete user registry, the company administrator update, the phone
validator and the response-code taxonomy.

Every handler is a pure function from the table before the request to its
reply kind (`Responses.Kind`: success, parameter error, not found, internal
error, …), the table after the commit and, for the fee handlers, the outbox of
`(group, message)` pushes (`Effects.Transition`).

- Fee and user tables are sequences in scan order, so `.first()` is the first
  matching row.
- Accounts and companies are maps keyed by their primary key.
- The current instant, fresh uuids, `strptime` and the set of websocket
  connections whose send fails are parameters.

| module | file | models |
|---|---|---|
| `Wrappers` | wrappers.dfy | `Option` |
| `Text` | text.dfy | Python `str.strip`, truthiness and `LIKE '%s%'` |
| `Validation` | validation.dfy | `validate_phone` under `re.match` |
| `Responses` | responses.dfy | utils/response.py |
| `Enums` | enums.dfy | models/enums.py, and the client's settlement-status enum |
| `Times` | times.dfy | instants and the end-of-day offset of the date filter |
| `Tables` | tables.dfy | `.first()`, `WHERE`, `COUNT`, `ORDER BY … DESC`, `OFFSET/LIMIT` |
| `Fees` | fees.dfy | models/fee.py, with the extra attributes the handlers use |
| `Effects` | effects.dfy | push targets and messages |
| `DriverApi` | driver.dfy | api/driver.py |
| `ClientApi` | client.dfy | the fee endpoints of api/client.py |
| `Accounts` | accounts.dfy | models/account.py and the recharge endpoints of api/client.py |
| `Connections` | connections.dfy | websocket/manager.py |
| `Workflow` | workflow.dfy | runs of fee requests, and pushes through the registry |
| `Companies` | companies.dfy | api/company.py |
| `Users` | users.dfy | api/user.py |

## Model

| member | source | states |
|---|---|---|
| Text.Strip | api/user.py:85-98 | The stripped string is the slice of the input left after removing its longest leading and trailing whitespace runs. It is empty exactly when the input is blank. |
| Text.StripIdempotent | api/company.py:173-176 | Stripping a stripped string changes nothing. |
| Text.Contains | api/driver.py:229-231 | The `LIKE '%s%'` filter holds exactly when the needle occurs at some position of the text. |
| Validation.ValidatePhoneIffShape | utils/validation.py:4-9 | The anchored regex `^1[3-9]\d{9}$` accepts exactly these strings: `'1'`, a character `3`–`9`, then nine ASCII digits, optionally followed by one final newline. |
| Validation.MatchFromPositionwise | utils/validation.py:4-9 | Matching the remaining regex atoms is the same as matching each atom at its own position. |
| Validation.ValidatePhoneAcceptsMobileNumbers | utils/validation.py:4-9 | Every `1`+`[3-9]`+nine-digit string is accepted. So is the same string followed by one newline, because `$` also matches before a final newline. |
| Validation.ValidatePhoneRejectsBadFirst | utils/validation.py:4-9 | A string whose first character is not `1` is rejected, because the match is anchored at the start. |
| Validation.ValidatePhoneRejectsBadSecond | utils/validation.py:4 | A second character outside `3`–`9` (for example `0`, `1` or `2`) is rejected. |
| Validation.ValidatePhoneRejectsWrongDigitCount | utils/validation.py:4 | Fewer or more than nine digits after the two-character prefix are rejected. |
| Validation.StripValidPhone | api/company.py:167-176 | Stripping an accepted phone drops only its trailing newline, and the result is still accepted. |
| Responses.SuccessResponse | utils/response.py:40-52 | The business code is 200. The HTTP status, message and data are as given. The defaults are HTTP 200, "操作成功" and no data. |
| Responses.ErrorResponse | utils/response.py:55-71 | The code, HTTP status, message and data are as given. The defaults are 400/400 and no data. |
| Responses.KindOfCode | utils/response.py:22-37 | Decoding a business code gives back the kind whose code it is. |
| Responses.HelpersCodeEqualsStatus | utils/response.py:74-116 | In every helper, the business code equals the HTTP status, the data is empty, and the code maps back to the helper's kind. |
| Responses.CodeOfInjective | utils/response.py:22-37 | No two outcome kinds share a code. |
| Responses.HelperDefaults | utils/response.py:17-19 | A reply body carries exactly a code, a message and data, with data defaulting to none. Each helper has its default message. |
| Enums.OrderStatusRoundTrip | models/enums.py:39-47 | Parsing an order status's value gives the status back. A value parses to a status exactly when it is that status's value. |
| Enums.OrderStatusValuesDistinct | models/enums.py:39-47 | The four order statuses have four distinct values. |
| Enums.OrderStatusLookupIff | models/fee.py:16-18 | A plain string compared with the status column stands for a status exactly when it is that status's value or its member name. |
| Enums.RechargeStatusValuesDistinct | models/enums.py:50-52 | The two recharge statuses have two distinct values. |
| Enums.SettlementValuesCoincide | api/client.py:48-54 | The client enum's "待结算" and "已结算" are the values of `PENDING_SETTLEMENT` and `SETTLED`. A client value equals an order value only in those two pairings. |
| Fees.NewFeeDefaults | models/fee.py:8-27 | A new fee takes its id, waybill and order from the caller. It is `PENDING_PAYMENT`, its six money fields are 0, and both bill-image fields are `""`. |
| Fees.FindById | models/fee.py:11 | The lookup by fee id finds a row with that id exactly when the id is stored. Under unique ids, that row is the only one. |
| Fees.FindByOrderAndPath | api/driver.py:177-183 | The lookup finds the first row in scan order with that order and waybill, and nothing when none has them. |
| Fees.Replace | api/client.py:263-266 | Writing one row back keeps every other row and the set of ids. |
| Tables.FirstIndex | api/client.py:236-238 | `.first()` returns the earliest row that satisfies the filter, and none when no row does. |
| Tables.Filter | api/client.py:128-163 | The rows kept are exactly the matching rows, with their multiplicities. |
| Tables.CountIsFilterLength | api/client.py:128-165 | The `COUNT` query over a filter equals the number of rows the same filter lists. |
| Tables.SortDesc | api/client.py:172 | `ORDER BY … DESC` is a descending permutation of its input. |
| Tables.InsertDesc | api/client.py:172 | Inserting into a descending list keeps it descending and adds exactly that element. |
| Tables.Window | api/client.py:168-171 | `OFFSET/LIMIT` is the slice starting at the offset, at most `limit` long, and empty past the end. |
| Tables.SortedWindow | api/client.py:171-172 | A window of a descending list is descending. |
| Tables.TotalPages | api/client.py:169 | `(total + size - 1) // size` is the ceiling of `total / size`. |
| Tables.Listing | api/client.py:128-172 | The listing order holds every matching row once, with its multiplicity, and nothing else. |
| Tables.Page | api/client.py:168-171 | Page `page` is the run of the listing at offset `(page - 1) * size`. It is `size` rows long while rows remain, holds the rest on the last page, and is empty past it. |
| Tables.ListPage | api/driver.py:241-249 | The items are exactly page `page` of the matching rows ordered by the key descending. Their number is `size`, or the remainder on the last page, or 0 past it. Each is a matching row of the table, in descending key order. `total` counts every matching row. A first page large enough holds all of them. |
| Tables.PagesUpToPrefix | api/client.py:168-171 | Pages 1 to `n` together are the first `n * size` rows of the listing, or all of it when that is exceeded. |
| Tables.PagesCover | api/client.py:168-171 | Pages 1 to `total_pages` together are the whole listing, in order. Every later page is empty. |
| Tables.ListingPagesCover | api/client.py:128-172 | Pages 1 to `total_pages` together hold every matching row exactly once. |
| Tables.LaterOffset | api/client.py:168 | A page after page `n` starts at or after row `n * size`. |
| Tables.FilteredListing | api/client.py:128-175 | Sorting and windowing after filtering keeps only matching rows of the table. |
| Tables.SortedListing | api/client.py:168-175 | A window of the sorted rows is descending and drawn from those rows; a full window is all of them. |
| Tables.MapRows | api/client.py:178-184 | Converting rows for the reply keeps their number and order. |
| DriverApi.SubmitDriverFee | api/driver.py:66-140 | Submission succeeds exactly when the three ids are non-empty, the four fees are non-zero and the fresh id is unused. A reused id is an internal error. A failure changes nothing and pushes nothing. Success appends one fee holding the request's four fees and the new id, and pushes `fee_submitted` to platform and client only. Unique ids and the absence of `PENDING_SETTLEMENT` are preserved. |
| DriverApi.SubmitKeepsDefaults | api/driver.py:84-95 | The stored claim is `PENDING_PAYMENT` with total price and driver fee 0. The driver id is not stored. |
| DriverApi.SubmitAcceptsNegativeFees | api/driver.py:71-82 | A negative amount passes the truthiness check and is stored. |
| DriverApi.GetFee | api/driver.py:144-166 | Not found exactly when no fee has that order and waybill. Otherwise the reply shows the first such fee, with each `except_*` field equal to the current field. |
| DriverApi.ConfirmFee | api/driver.py:174-202 | An empty id is a parameter error. No fee for the order and waybill is not found. Success happens exactly when all three ids are given and a fee exists for the order and waybill. Confirmation sets the first such fee to `PENDING_PAYMENT` from any status. No amount or other fee changes. `fee_confirmed` is pushed to platform and client only. |
| DriverApi.ConfirmReopensSettled | api/driver.py:181-185 | Confirming a `SETTLED` fee succeeds and returns it to `PENDING_PAYMENT`. |
| DriverApi.ConfirmReplyAsWritten | api/driver.py:204 | As written, the reply's message is the default "操作成功" and the confirmation text is its data. |
| DriverApi.ConfirmReply | api/driver.py:204 | The corrected reply carries the confirmation text as its message and no data. |
| DriverApi.ConfirmTextIsNotTheMessage | api/driver.py:204 | The two replies differ in both message and data. |
| DriverApi.GetFeeList | api/driver.py:212-284 | One page of the fees whose status the raw filter names, by value or by member name, and whose order number contains the search, newest first. The items are exactly page `page` of that listing, with the exact page length. The total counts the same filter, and the page count is the ceiling. |
| DriverApi.DriverStatusFilterExact | api/driver.py:225-226 | A non-empty status filter selects exactly the fees whose status it stands for: the status whose value or member name is that string. |
| DriverApi.SettledListedByValueAndName | api/driver.py:225-226 | A settled fee is listed for "已结算" and for "SETTLED", and for no other status's value or name. |
| DriverApi.DriverListNoFilter | api/driver.py:226-239 | A blank search or an empty status filter selects every fee. |
| ClientApi.DayRangeOf | api/client.py:114-123 | The date filter applies only when both days are given. It covers the start day's midnight through 23:59:59 of the end day. An unparsable day is refused. |
| ClientApi.GetSettlementList | api/client.py:62-219 | A malformed day is a parameter error. Otherwise one page of the matching fees, latest order time first, each shown with its display status. The items are exactly page `page` of that listing, converted row by row, with the exact page length. The total counts the same filter, and the page count is the ceiling. |
| ClientApi.StatusFilterAlias | api/client.py:83-97 | "待结算" selects exactly the `PENDING_PAYMENT` fees and "已结算" the `SETTLED` ones. No filter selects both kinds. A selected fee displays as its filter. |
| ClientApi.DisplayStatusRenamesOnlyPendingPayment | api/client.py:180-184 | Only `PENDING_PAYMENT` is renamed, to "待结算". Other statuses pass through, and "待支付" is never shown. |
| ClientApi.Deduct | api/client.py:250-256 | A supplied deduction yields `max(0, amount - d)`, which is never negative. No deduction keeps the amount. |
| ClientApi.NegativeDeductionRaisesFee | api/client.py:252-256 | A negative deduction is accepted and raises the fee. |
| ClientApi.RejectFee | api/client.py:226-287 | An unknown id is not found. A status other than `PENDING_PAYMENT`/`APPEALING` is a parameter error. Both leave the table unchanged and push nothing. A bill reject deducts only the supplied deductions and records a bill reason. Any other reject type records only a receipt reason. Either way the fee ends `SETTLED`. Apart from status, update time, the two deductible amounts and the two reasons, the fee is unchanged, and so are the other rows. Exactly one `reject_fee` push goes to the driver group. |
| ClientApi.RejectTwiceRefused | api/client.py:243-247 | A rejected fee cannot be rejected again. |
| ClientApi.PayFee | api/client.py:291-324 | An unknown id is not found. Otherwise only `settlement_enable` and the update time change, and one `pay_fee` push goes to the platform group. |
| ClientApi.PayFeeIdempotent | api/client.py:299-306 | Requesting settlement twice leaves the table as requesting it once. |
| ClientApi.GetOrderDetailFee | api/client.py:567-590 | Neither number given is a parameter error. The lookup goes by order number when one is given, else by waybill number. Not found means no row has that number. A found fee is the first row in scan order with that number, as `.first()` returns. |
| ClientApi.OrderIdTakesPrecedence | api/client.py:579-586 | With an order number given, the waybill number is ignored. |
| Accounts.NewAccountDefaults | models/account.py:10-37 | A new account has balance, recharge amount and received amount 0, warning value 0, no warning phone, warnings disabled, and status `UNDER_REVIEW`. |
| Accounts.RechargeFee | api/client.py:328-363 | An unknown account is not found and nothing changes. Otherwise the request is recorded and the account goes under review. Only the status, update time and the four recharge fields change. Balance, received amount, warning fields, ids, creation time and other accounts are untouched. |
| Accounts.ApproveRecharge | api/client.py:443-495 | An unknown account is not found. Approval succeeds exactly when the account is under review. It then adds the received amount, not the requested amount, to the balance and marks the account approved. Only the balance, status, recharge time and the two update times change. Any failure changes nothing. |
| Accounts.ApproveTwiceRefused | api/client.py:456-469 | A second approval is a parameter error, and the balance stays where the first one put it. |
| Accounts.FreshAccountApproval | api/client.py:459-466 | A fresh account already passes the review guard, and approving it credits nothing. |
| Accounts.UpdateBalanceWarning | api/client.py:504-559 | Only the three warning fields and the two update times change. An unknown account is not found. |
| Accounts.RunKeepsReceivedAmounts | api/client.py:328-559 | No sequence of account requests changes any received amount. With all received amounts 0, no balance ever changes. |
| Connections.InitialRegistry | websocket/manager.py:7-11 | The registry starts with exactly the three groups, all empty. |
| Connections.Connect | websocket/manager.py:14-18 | A known type appends the connection to the end of its group. An unknown type changes nothing. No key is added. |
| Connections.GroupsArePermanent | websocket/manager.py:7-25 | Connect and disconnect keep the three groups. |
| Connections.RemoveFirst | websocket/manager.py:23-25 | `list.remove` takes one copy of the connection away, when there is one. |
| Connections.IndexOf | websocket/manager.py:23-25 | The position found is the first occurrence of the connection. |
| Connections.RemoveFirstCutsFirst | websocket/manager.py:23-25 | Removing cuts out exactly the first occurrence and keeps the other entries in order. |
| Connections.RemoveFirstUnique | websocket/manager.py:21-25 | In a list without duplicates, the connection is gone after removal and the list stays duplicate-free. |
| Connections.Disconnect | websocket/manager.py:21-25 | Each group loses the first occurrence of the connection. The groups stay the same. |
| Connections.DisconnectShrinks | websocket/manager.py:21-25 | Disconnecting only removes entries. |
| Connections.DisconnectRemovesEverywhere | websocket/manager.py:21-25 | Without duplicates, a disconnected connection is in no group afterwards. |
| Connections.SendFrom | websocket/manager.py:33-39 | The send pass only shrinks the registry. Every connection it delivers to is a healthy member of the group, and every one it drops is a failing member. |
| Connections.SendFromIsVisit | websocket/manager.py:33-39 | Whom a pass reaches and drops depends only on the group's list, which a failed send shortens while the loop runs. |
| Connections.VisitMissesEarlier | websocket/manager.py:33-39 | Without duplicates, a pass from index `j` never reaches or drops an entry before `j`. |
| Connections.SendSkipsNext | websocket/manager.py:33-39 | In any group without duplicates, the connection right after a failed one is neither tried nor dropped in that pass. |
| Connections.SendFromAllHealthy | websocket/manager.py:33-35 | With no failure, every connection of the group receives the message once in list order, and the registry is unchanged. |
| Connections.SendFromDropsExactly | websocket/manager.py:33-39 | A dropped connection is absent from every group afterwards, no duplicate appears, and an undropped one stays. |
| Connections.SendMessageToType | websocket/manager.py:28-39 | An unknown type is a no-op. A known type sends to its group. |
| Connections.SendToHealthyGroup | websocket/manager.py:28-35 | When no member of the group fails, the whole group receives the message in order. |
| Connections.SendSkipsEntryAfterRemoved | websocket/manager.py:33-39 | An instance of the skip: when both connections of a two-member group fail, only the first is dropped, and the second stays registered. |
| Connections.SendToAllExcept | websocket/manager.py:42-53 | Sending to several groups delivers only to those groups. |
| Connections.Tag | websocket/manager.py:42-53 | Every delivery is tagged with its group. |
| Connections.SendMessageToAllExceptSender | websocket/manager.py:42-53 | The sender's group never receives the message. |
| Connections.SendToAllExceptHealthy | websocket/manager.py:42-53 | When no connection of another group fails, every connection of every other group gets the message once, group by group and in connection order. The registry is unchanged. |
| Connections.AllExceptSenderHealthy | websocket/manager.py:42-53 | The same for the broadcast over the three groups in dict order. |
| Connections.EveryOtherGroupInOrder | websocket/manager.py:42-45 | Over platform, client and driver, a known sender's broadcast reaches the other two groups in that order. |
| Workflow.RunKeepsInvariants | models/enums.py:46 | Along any run of submit, confirm, reject and pay, ids stay unique, `PENDING_SETTLEMENT` is never stored, and no fee disappears. |
| Workflow.PendingSettlementNeverStored | models/enums.py:46 | Starting from an empty table, no run of fee requests ever stores `PENDING_SETTLEMENT`. |
| Workflow.Deliver | websocket/manager.py:28-39 | Delivering an outbox only shrinks the registry. Every delivery goes to a non-failing connection listed under one of the outbox's groups. |
| Workflow.SubmissionNeverReachesDrivers | api/driver.py:118-120 | A connection in neither the platform nor the client group receives no push from a submission. |
| Workflow.RejectionReachesOnlyDrivers | api/client.py:270-280 | A connection outside the driver group receives no push from a reject. |
| Companies.GetCompany | api/company.py:63-99 | An unknown company is not found. Otherwise the stored record is returned. |
| Companies.UpdateCompanyAdminInfo | api/company.py:136-196 | An unknown company is not found, checked before the fields. Otherwise it is a parameter error when the name, phone or password is blank or the raw phone fails the validator. On success the stripped values and the update time are stored and nothing else changes. |
| Companies.GetAfterUpdate | api/company.py:63-99 | Reading a company after an update: not found exactly when the update was. After a success it shows the stripped administrator fields and the update's instant, with the other fields as stored. After a refusal it is as before. |
| Companies.UnknownCompanyBeforeValidation | api/company.py:154-166 | An unknown id is not found even when every field is blank. |
| Companies.StoredAdminPhoneIsValid | api/company.py:167-176 | A stored administrator phone always passes the validator and is already stripped. |
| Companies.UpdateWithStoredValues | api/company.py:173-176 | An update whose stripped values and instant equal what is stored succeeds and leaves the store as it is. |
| Companies.UpdateAdminIdempotent | api/company.py:173-176 | Repeating an update at the same instant changes nothing further. |
| Users.CreateUserChecking | api/user.py:85-143 | Blank fields are refused first, then an unknown company. A live user already holding the compared phone or job number is also refused. Success appends exactly the new user. |
| Users.CreateUserAsWritten | api/user.py:110-123 | The code as written compares the unstripped phone and job number against the stored stripped values. |
| Users.CreateUserAsWrittenDuplicatesJobNumber | api/user.py:110-129 | A job number differing from a live one only by surrounding spaces passes the written check. In this model, which leaves the unique column out, two live users then share a job number. The corrected check refuses it. |
| Users.LeadingSpaceJobNumberPassesRawCheck | api/user.py:110-129 | A concrete table and request showing the duplicate. |
| Users.CreateUser | api/user.py:72-169 | The corrected create stores stripped fields, `registered = false`, operator type `CLIENT` and the given permissions. The stored phone passes the validator. Unique ids and unique live phones and job numbers are preserved. |
| Users.DeletedContactsReusable | api/user.py:110-123 | After a live user is deleted, its phone and job number pass the handler's live-user conflict check for a new user. |
| Users.GetUserList | api/user.py:227-326 | A blank company id is a parameter error and an unknown company is not found. Otherwise one page of the live users of that company whose nickname or job number contains the search. The page is newest first, with the ceiling page count. |
| Users.FindLiveUser | api/user.py:410-416 | Finds the first live row with the id: no earlier row is a live row with that id. Finds none when every row with the id is deleted. |
| Users.UpdateUser | api/user.py:376-489 | Only a live user can be updated. Conflicts are checked among other live users, excluding the target. Success stores the stripped fields and replaces the permissions wholesale; an empty list clears them. Unique live phones and job numbers are preserved. |
| Users.UpdatePreserves | api/user.py:420-461 | Writing back a user whose contacts are free among the other live users keeps ids and live contacts unique. |
| Users.OwnContactsFree | api/user.py:410-444 | For a live employee, the live lookup finds that employee's row, and no other live employee holds its phone or job number. |
| Users.UpdateKeepsOwnContacts | api/user.py:420-444 | A user may resubmit their own phone and job number unchanged. |
| Users.UpdateDeletedUserNotFound | api/user.py:410-416 | A deleted user cannot be updated. |
| Users.FindUser | api/user.py:528-531 | `db.get` finds the row with the id whether or not it is deleted. |
| Users.DeleteUser | api/user.py:515-547 | Deletion only sets the deletion flag and keeps the row. Uniqueness is preserved. |
| Users.DeleteTwice | api/user.py:528-533 | Deleting an already deleted user succeeds again and changes nothing. |
| Users.DeletedUserNotListed | api/user.py:252-283 | A deleted user never appears in the user list. |

## Left out

- HTTP routing, request parsing and the construction of `JSONResponse` are not modelled. Pydantic field limits, such as `size <= 100`, become plain preconditions on page and size being at least 1.
- The database engine is reduced to in-memory tables. Each handler's commit is atomic.
- A commit failure is modelled only for a fresh id that collides with a stored key (an internal error, with nothing changed). Other exceptions that the handlers turn into a 500 are not modelled.
- Database unique constraints on a user's phone and job number are not modelled. In the database these would turn the create-user finding below into a 500 at commit.
- Users.DeletedContactsReusable: proves only that the reused phone and job number pass the handler's check among live users. The columns are unique over all rows, deleted ones included (models/user.py:21 and 23). So the database still refuses the reuse at commit, and the handler answers with an internal error (api/user.py:162-169). The same holds for `update_user` (api/user.py:482-489).
- `LIKE` wildcard escaping and case-insensitive collations are left out. A search is a plain substring test.
- Python's `\d` also matches non-ASCII decimal digits. The model accepts only ASCII digits.
- Instants are whole seconds. Only their order and the end-of-day offset are used. `utcnow`, `uuid4` and `strptime` are parameters.
- A fee without an order time sorts below every instant. Ties in `ORDER BY` are broken by scan order, which the database does not promise.
- Websocket I/O is reduced to a set of connections whose send fails. `close()` is assumed not to raise. Scheduling and concurrency are not modelled.
- `get_account_list` is not part of this model.
- The detail payload of `get_order_detail` (order detail, driver and account records) is not modelled; only its fee lookup is.
- Passwords and their hashing (utils/pwd.py) are not part of this model. The administrator password is an opaque string.
- The JSON encoding of user permissions is not modelled. Permissions are a sequence of strings.
- The fee attributes that models/fee.py does not declare are added to the record, with defaults assumed to be `false` or absent. These are `settlement_enable`, the reject reasons, `company_id`, `driver_account_id`, `dispatch_channel`, `logistics_platform` and `receipt_imgs`.
- The company record follows the attributes that api/company.py reads and writes, not the declarations in models/company.py.
- `confirm_fee` has no exception handler, so none is modelled.
- The handlers are modelled as written, even where they differ from their own descriptions. A reject leaves the fee `SETTLED`. Confirm forces `PENDING_PAYMENT` from any status. `pay_fee` only raises a flag. No money moves between company and driver anywhere, so no ledger is modelled.
- Companies.GetCompany: the model returns the stored record itself. The field-by-field reply body is not modelled.

## Findings

| source | as written | input that shows it | evidently intended | confidence | as-written member | corrected member |
|---|---|---|---|---|---|---|
| api/user.py:110-129 | The conflict checks compare the raw `phone`/`job_number` against stored values, but the stored values are stripped. | A live user with job number `E001`, and a new request with job number `" E001"` | The conflict check compares the stripped values that are about to be stored, as `update_user` does. | not executed | Users.CreateUserAsWritten (shown by Users.CreateUserAsWrittenDuplicatesJobNumber and Users.LeadingSpaceJobNumberPassesRawCheck) | Users.CreateUser |
| api/driver.py:204 | `success_response("费用确认成功")` passes the text as the first positional parameter, `data`. | Any successful confirmation | The text is the reply's `message`, as in every other handler. | not executed | DriverApi.ConfirmReplyAsWritten (shown by DriverApi.ConfirmTextIsNotTheMessage) | DriverApi.ConfirmReply |
