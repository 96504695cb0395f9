/** The rules behind the registration-list actions of an event's
    registration form: which registrations an action applies to, and what
    deleting, checking in, approving or rejecting them, toggling a payment,
    exporting attachments and pre-filling a new registration do. */
module RegistrationActions {
  import opened Wrappers
  import opened Sorting
  import opened Decimal

  /** The approval state `update_state` moves a registration to. */
  datatype RegistrationState = Pending | Approved | Rejected | Withdrawn

  /** A payment transaction: amount in the currency's minor units. */
  datatype Transaction = Transaction(amount: int, currency: string)

  /** One answer of a registration to a form item; `storageFileId` is set
      when the answer is an uploaded file. */
  datatype RegistrationData = RegistrationData(fieldId: int, storageFileId: Option<int>)

  /** The answer's `storage_file_id` is truthy: set and non-zero. */
  predicate HasStoredFile(d: RegistrationData)
  {
    d.storageFileId.Some? && d.storageFileId.value != 0
  }

  /** A registration. Its identity, name and answers are fixed; the
      actions change whether it is deleted, checked in and approved. */
  class Registration {
    const id: int
    const regformId: int
    const friendlyId: nat
    const firstName: string
    const lastName: string
    const price: int
    const currency: string
    const dataByField: map<int, RegistrationData>
    var isDeleted: bool
    var checkedIn: bool
    var state: RegistrationState
    var isPaid: bool
    var transaction: Option<Transaction>

    constructor (id: int, regformId: int, friendlyId: nat, firstName: string, lastName: string,
                 price: int, currency: string, dataByField: map<int, RegistrationData>)
      ensures this.id == id && this.regformId == regformId && this.friendlyId == friendlyId
      ensures this.firstName == firstName && this.lastName == lastName
      ensures this.price == price && this.currency == currency && this.dataByField == dataByField
      ensures !isDeleted && !checkedIn && state == Pending && !isPaid && transaction.None?
    {
      this.id := id;
      this.regformId := regformId;
      this.friendlyId := friendlyId;
      this.firstName := firstName;
      this.lastName := lastName;
      this.price := price;
      this.currency := currency;
      this.dataByField := dataByField;
      isDeleted, checkedIn, state, isPaid, transaction := false, false, Pending, false, None;
    }

    /** `RHRegistrationCheckIn`, PUT. */
    method CheckIn()
      modifies this
      ensures checkedIn
      ensures isDeleted == old(isDeleted) && state == old(state) && isPaid == old(isPaid) && transaction == old(transaction)
    {
      checkedIn := true;
    }

    /** `RHRegistrationCheckIn`, DELETE. */
    method UndoCheckIn()
      modifies this
      ensures !checkedIn
      ensures isDeleted == old(isDeleted) && state == old(state) && isPaid == old(isPaid) && transaction == old(transaction)
    {
      checkedIn := false;
    }

    /** `_modify_registration_status`: approve or reject. */
    method ModifyStatus(approve: bool)
      modifies this
      ensures state == if approve then Approved else Rejected
      ensures isDeleted == old(isDeleted) && checkedIn == old(checkedIn) && isPaid == old(isPaid) && transaction == old(transaction)
    {
      if approve {
        state := Approved;
      } else {
        state := Rejected;
      }
    }
  }

  // ---------------------------------------------------------------------------
  // The selection an action applies to

  /** The sort key of `order_by_name`: last name, first name, friendly id. */
  function NameKeyOf(r: Registration): (string, string, nat)
  {
    (r.lastName, r.firstName, r.friendlyId)
  }

  predicate NameLe(a: (string, string, nat), b: (string, string, nat))
  {
    if a.0 != b.0 then LexLe(a.0, b.0)
    else if a.1 != b.1 then LexLe(a.1, b.1)
    else a.2 <= b.2
  }

  /** Ordering by name is a valid ordering. */
  lemma NameLeIsTotalPreorder()
    ensures TotalPreorder(NameLe)
  {
    forall a, b ensures NameLe(a, b) || NameLe(b, a) {
      LexLeTotal(a.0, b.0);
      LexLeTotal(a.1, b.1);
    }
    forall a, b, c | NameLe(a, b) && NameLe(b, c) ensures NameLe(a, c) {
      NameLeTransitive(a, b, c);
    }
  }

  lemma NameLeTransitive(a: (string, string, nat), b: (string, string, nat), c: (string, string, nat))
    requires NameLe(a, b) && NameLe(b, c)
    ensures NameLe(a, c)
  {
    if a.0 != b.0 && b.0 != c.0 {
      LexLeTransitive(a.0, b.0, c.0);
      if a.0 == c.0 { LexLeAntisymmetric(b.0, c.0); }
    } else if a.0 == b.0 && b.0 == c.0 {
      if a.1 != b.1 && b.1 != c.1 {
        LexLeTransitive(a.1, b.1, c.1);
        if a.1 == c.1 { LexLeAntisymmetric(b.1, c.1); }
      }
    }
  }

  /** The registrations an action applies to: of this form, not deleted,
      with an id among the submitted ones. */
  predicate Selectable(r: Registration, regformId: int, ids: set<int>)
    reads r
  {
    r.regformId == regformId && r.id in ids && !r.isDeleted
  }

  predicate DistinctRegistrations(regs: seq<Registration>)
  {
    forall i, j :: 0 <= i < j < |regs| ==> regs[i] != regs[j]
  }

  /** The submitted `registration_id` values as the set the query uses. */
  function SubmittedIds(submitted: seq<int>): (ids: set<int>)
    ensures forall x :: x in ids <==> x in submitted
  {
    set x | x in submitted
  }

  /** `RHRegistrationsActionBase._checkParams`: the selectable registrations
      among `all`, ordered by name. Submitting an id twice selects its
      registration once. */
  method SelectRegistrations(all: seq<Registration>, regformId: int, submitted: seq<int>) returns (selection: seq<Registration>)
    requires DistinctRegistrations(all)
    ensures SortedBy(selection, NameKeyOf, NameLe)
    ensures forall r :: r in selection <==> r in all && Selectable(r, regformId, SubmittedIds(submitted))
    ensures DistinctRegistrations(selection)
  {
    var ids := SubmittedIds(submitted);
    var matched: seq<Registration> := [];
    for i := 0 to |all|
      invariant forall r :: r in matched <==> r in all[..i] && Selectable(r, regformId, ids)
      invariant forall m, n :: 0 <= m < n < |matched| ==> matched[m] != matched[n]
      invariant forall r :: r in matched ==> r !in all[i..]
    {
      assert all[..i + 1] == all[..i] + [all[i]];
      if Selectable(all[i], regformId, ids) {
        matched := matched + [all[i]];
      }
    }
    assert all[..|all|] == all;
    NameLeIsTotalPreorder();
    selection := SortByKey(matched, NameKeyOf, NameLe);
    assert forall r :: r in selection <==> r in multiset(matched) by {
      forall r ensures r in selection <==> r in multiset(matched) {
        assert r in selection <==> r in multiset(selection);
      }
    }
    DistinctByMultiset(matched, selection);
  }

  /** A rearrangement of a list without repetitions has none. */
  lemma DistinctByMultiset(s: seq<Registration>, t: seq<Registration>)
    requires DistinctRegistrations(s)
    requires multiset(s) == multiset(t)
    ensures DistinctRegistrations(t)
  {
    forall i, j | 0 <= i < j < |t| ensures t[i] != t[j] {
      assert t[i] in multiset(s);
      DistinctOccursOnce(s, t[i]);
      RepeatCountsTwice(t, i, j);
    }
  }

  /** An element at two positions occurs at least twice. */
  lemma RepeatCountsTwice(t: seq<Registration>, i: nat, j: nat)
    requires i < j < |t|
    ensures t[i] != t[j] || multiset(t)[t[i]] >= 2
  {
    assert t == t[..j] + [t[j]] + t[j + 1..];
    assert t[..j][i] == t[i];
    assert t[i] in multiset(t[..j]);
  }

  lemma {:induction false} DistinctOccursOnce(s: seq<Registration>, r: Registration)
    requires DistinctRegistrations(s)
    requires r in multiset(s)
    ensures multiset(s)[r] == 1
  {
    assert s == [s[0]] + s[1..];
    if s[0] == r {
      forall k | 0 <= k < |s| - 1 ensures s[1..][k] != r {
        assert s[1..][k] == s[k + 1];
      }
      assert multiset(s[1..])[r] == 0;
    } else {
      DistinctOccursOnce(s[1..], r);
    }
  }

  /** The email preview needs a registration to render for: an empty
      selection is a user error ("the selected registrants have been
      removed"), otherwise the first one is used. */
  function PreviewRegistration(selection: seq<Registration>): (r: Result<Registration, string>)
    ensures r.Err? <==> selection == []
    ensures r.Ok? ==> r.value == selection[0]
  {
    if selection == [] then Err("The selected registrants have been removed.")
    else Ok(selection[0])
  }

  // ---------------------------------------------------------------------------
  // Bulk actions

  /** `RHRegistrationDelete`: every selected registration is marked deleted;
      the count reported is the size of the selection. */
  method BulkDelete(selection: seq<Registration>) returns (count: nat)
    modifies set r | r in selection
    ensures count == |selection|
    ensures forall r :: r in selection ==> r.isDeleted
    ensures forall r :: r in selection ==>
      r.checkedIn == old(r.checkedIn) && r.state == old(r.state) && r.isPaid == old(r.isPaid)
        && r.transaction == old(r.transaction)
  {
    for i := 0 to |selection|
      invariant forall k :: 0 <= k < i ==> selection[k].isDeleted
      invariant forall r :: r in selection ==>
        r.checkedIn == old(r.checkedIn) && r.state == old(r.state) && r.isPaid == old(r.isPaid)
        && r.transaction == old(r.transaction)
    {
      selection[i].isDeleted := true;
    }
    count := |selection|;
  }

  /** `RHRegistrationBulkCheckIn`: every selected registration is checked in
      when the submitted `check_in` value is "1", and checked out otherwise. */
  method BulkCheckIn(selection: seq<Registration>, checkInValue: string)
    modifies set r | r in selection
    ensures forall r :: r in selection ==> r.checkedIn == (checkInValue == "1")
    ensures forall r :: r in selection ==>
      r.isDeleted == old(r.isDeleted) && r.state == old(r.state) && r.isPaid == old(r.isPaid)
        && r.transaction == old(r.transaction)
  {
    var checkIn := checkInValue == "1";
    for i := 0 to |selection|
      invariant forall k :: 0 <= k < i ==> selection[k].checkedIn == checkIn
      invariant forall r :: r in selection ==>
        r.isDeleted == old(r.isDeleted) && r.state == old(r.state) && r.isPaid == old(r.isPaid)
        && r.transaction == old(r.transaction)
    {
      selection[i].checkedIn := checkIn;
    }
  }

  /** `RHRegistrationsModifyStatus`: every selected registration is approved
      when the submitted `approve` value is "1", and rejected otherwise. */
  method BulkModifyStatus(selection: seq<Registration>, approveValue: string)
    modifies set r | r in selection
    ensures forall r :: r in selection ==> r.state == if approveValue == "1" then Approved else Rejected
    ensures forall r :: r in selection ==>
      r.isDeleted == old(r.isDeleted) && r.checkedIn == old(r.checkedIn) && r.isPaid == old(r.isPaid)
        && r.transaction == old(r.transaction)
  {
    var approve := approveValue == "1";
    for i := 0 to |selection|
      invariant forall k :: 0 <= k < i ==> selection[k].state == if approve then Approved else Rejected
      invariant forall r :: r in selection ==>
        r.isDeleted == old(r.isDeleted) && r.checkedIn == old(r.checkedIn) && r.isPaid == old(r.isPaid)
        && r.transaction == old(r.transaction)
    {
      selection[i].ModifyStatus(approve);
    }
  }

  // ---------------------------------------------------------------------------
  // Toggling the payment

  datatype TransactionAction = Complete | Cancel

  /** The transaction `register_transaction` is asked to record. */
  datatype TransactionRequest = TransactionRequest(amount: int, currency: string, action: TransactionAction)

  /** `RHRegistrationTogglePayment`: nothing is registered when the requested
      state is the current one; paying registers the registration's price as
      completed; unpaying cancels the amount of its transaction, which is an
      error when it has none. */
  function TogglePayment(payValue: Option<string>, isPaid: bool, price: int, currency: string,
                         transaction: Option<Transaction>): (r: Result<Option<TransactionRequest>, string>)
    ensures (payValue == Some("1")) == isPaid <==> r == Ok(None)
    ensures r.Err? <==> payValue != Some("1") && isPaid && transaction.None?
    ensures r.Ok? && r.value.Some? ==> (r.value.value.action == Complete <==> payValue == Some("1"))
    ensures r.Ok? && r.value.Some? && payValue == Some("1") ==> r.value.value.amount == price && r.value.value.currency == currency
    ensures r.Ok? && r.value.Some? && payValue != Some("1") ==>
      transaction.Some? && r.value.value.amount == transaction.value.amount && r.value.value.currency == transaction.value.currency
  {
    var pay := payValue == Some("1");
    if pay == isPaid then Ok(None)
    else if pay then Ok(Some(TransactionRequest(price, currency, Complete)))
    else if transaction.None? then Err("registration has no transaction")
    else Ok(Some(TransactionRequest(transaction.value.amount, transaction.value.currency, Cancel)))
  }

  /** The transaction recorded for a request. */
  function Recorded(q: TransactionRequest): Transaction
  {
    Transaction(q.amount, q.currency)
  }

  /** Marking a registration paid and then unpaid cancels exactly the price
      that was paid, in the same currency, assuming the registered
      transaction is the one requested. */
  lemma PayThenUnpayCancelsPrice(price: int, currency: string, old_transaction: Option<Transaction>)
    ensures var paid := TogglePayment(Some("1"), false, price, currency, old_transaction);
      paid.Ok? && paid.value.Some?
      && TogglePayment(Some("0"), true, price, currency, Some(Recorded(paid.value.value)))
         == Ok(Some(TransactionRequest(price, currency, Cancel)))
  {
  }

  // ---------------------------------------------------------------------------
  // Exporting attachments

  /** A form item; file uploads have input type "file". */
  datatype FormItem = FormItem(id: int, inputType: string)

  predicate IsFileField(item: FormItem)
  {
    item.inputType == "file"
  }

  /** A registration's uploaded files, in the order of the given fields:
      the answer to each field that has one with a stored file. */
  function FileAnswers(data: map<int, RegistrationData>, fields: seq<FormItem>): (r: seq<RegistrationData>)
    ensures |r| <= |fields|
    ensures forall i :: 0 <= i < |r| ==> HasStoredFile(r[i]) && r[i] in data.Values
  {
    if fields == [] then []
    else
      var rest := FileAnswers(data, fields[1..]);
      var f := fields[0];
      if f.id in data && HasStoredFile(data[f.id]) then [data[f.id]] + rest else rest
  }

  /** The file fields of the form, in form order. */
  function FileFields(items: seq<FormItem>): (r: seq<FormItem>)
    ensures forall i :: 0 <= i < |r| ==> IsFileField(r[i])
    ensures forall f :: f in r <==> f in items && IsFileField(f)
  {
    if items == [] then []
    else
      assert items == [items[0]] + items[1..];
      (if IsFileField(items[0]) then [items[0]] else []) + FileFields(items[1..])
  }

  /** A field's stored file is exported exactly when the registration has an
      answer to that field with a stored file. */
  lemma {:induction false} FileAnswersComplete(data: map<int, RegistrationData>, fields: seq<FormItem>, f: FormItem)
    requires f in fields
    ensures f.id in data && HasStoredFile(data[f.id]) ==> data[f.id] in FileAnswers(data, fields)
  {
    if fields[0] != f {
      FileAnswersComplete(data, fields[1..], f);
    }
  }

  /** The attachments of the given registrations: for each one with at least
      one stored file, its files in the order of the file fields. */
  function AttachmentsOf(selection: seq<Registration>, fileFields: seq<FormItem>): map<int, seq<RegistrationData>>
  {
    if selection == [] then map[]
    else
      var acc := AttachmentsOf(selection[..|selection| - 1], fileFields);
      var r := selection[|selection| - 1];
      var files := FileAnswers(r.dataByField, fileFields);
      if files != [] then acc[r.id := files] else acc
  }

  /** `RHRegistrationsExportAttachments._process`, collecting the files of
      the selected registrations before they are zipped. */
  method CollectAttachments(selection: seq<Registration>, formItems: seq<FormItem>)
    returns (attachments: map<int, seq<RegistrationData>>)
    ensures attachments == AttachmentsOf(selection, FileFields(formItems))
  {
    attachments := map[];
    var fileFields := FileFields(formItems);
    for i := 0 to |selection|
      invariant attachments == AttachmentsOf(selection[..i], fileFields)
    {
      assert selection[..i + 1][..i] == selection[..i];
      var r := selection[i];
      var files := FileAnswers(r.dataByField, fileFields);
      if files != [] {
        attachments := attachments[r.id := files];
      }
    }
    assert selection[..|selection|] == selection;
  }

  /** Some registration of `selection` with this id has a stored file. */
  ghost predicate HasStoredFiles(selection: seq<Registration>, fileFields: seq<FormItem>, id: int)
  {
    exists i :: 0 <= i < |selection| && selection[i].id == id && FileAnswers(selection[i].dataByField, fileFields) != []
  }

  /** A registration id is exported exactly when some selected registration
      with that id has a stored file, and never with an empty list. */
  lemma {:induction false} AttachmentsOfKeys(selection: seq<Registration>, fileFields: seq<FormItem>)
    ensures var m := AttachmentsOf(selection, fileFields);
      forall id :: id in m <==> HasStoredFiles(selection, fileFields, id)
    ensures var m := AttachmentsOf(selection, fileFields);
      forall id :: id in m ==> m[id] != []
  {
    if selection != [] {
      var n := |selection|;
      var front := selection[..n - 1];
      var last := selection[n - 1];
      var files := FileAnswers(last.dataByField, fileFields);
      var m := AttachmentsOf(selection, fileFields);
      AttachmentsOfKeys(front, fileFields);
      forall id ensures id in m <==> HasStoredFiles(selection, fileFields, id) {
        if id == last.id && files != [] {
          assert selection[n - 1].id == id;
        } else if HasStoredFiles(front, fileFields, id) {
          var i :| 0 <= i < |front| && front[i].id == id && FileAnswers(front[i].dataByField, fileFields) != [];
          assert selection[i] == front[i];
        } else {
          forall i | 0 <= i < n
            ensures !(selection[i].id == id && FileAnswers(selection[i].dataByField, fileFields) != [])
          {
            if i < n - 1 {
              assert selection[i] == front[i];
            }
          }
        }
      }
    }
  }

  /** When registration ids are distinct, as primary keys are, each selected
      registration's entry is exactly its list of stored files. */
  lemma {:induction false} AttachmentsOfDistinct(selection: seq<Registration>, fileFields: seq<FormItem>)
    requires forall i, j :: 0 <= i < j < |selection| ==> selection[i].id != selection[j].id
    ensures var m := AttachmentsOf(selection, fileFields);
      forall i :: 0 <= i < |selection| ==>
        (selection[i].id in m <==> FileAnswers(selection[i].dataByField, fileFields) != [])
        && (selection[i].id in m ==> m[selection[i].id] == FileAnswers(selection[i].dataByField, fileFields))
  {
    if selection != [] {
      var front := selection[..|selection| - 1];
      AttachmentsOfDistinct(front, fileFields);
      AttachmentsOfKeys(front, fileFields);
      var last := selection[|selection| - 1];
      forall i | 0 <= i < |front| ensures front[i] == selection[i] && front[i].id != last.id { }
    }
  }

  // ---------------------------------------------------------------------------
  // Pre-filling a registration created by a manager

  /** An Indico user, with the values of its personal-data attributes. */
  datatype User = User(isDeleted: bool, attributes: map<string, string>)

  /** `RHRegistrationCreate._get_user_data`: no `user` argument gives no
      data; a numeric argument names an Indico user, whose attributes fill
      the personal-data fields (all empty when there is no such user); any
      other argument names a pending identity, whose data fills them. The
      title is then mapped through `titleUuid`, which fails when `title` is
      not a personal-data field. */
  function GetUserData(userArg: Option<string>, users: map<nat, User>, pendingIdentities: map<string, map<string, string>>,
                       fieldNames: set<string>, titleUuid: Option<string> -> Option<string>)
    : (r: Result<map<string, Option<string>>, string>)
    ensures userArg.None? ==> r == Ok(map[])
    ensures userArg.Some? ==> (r.Err? <==> "title" !in fieldNames)
    ensures r.Ok? && userArg.Some? ==> r.value.Keys == fieldNames
    ensures r.Ok? && userArg.Some? ==> forall k :: k in fieldNames && k != "title" ==>
      r.value[k] == RawUserValue(userArg.value, users, pendingIdentities, k)
    ensures r.Ok? && userArg.Some? ==> r.value["title"] == titleUuid(RawUserValue(userArg.value, users, pendingIdentities, "title"))
  {
    if userArg.None? then Ok(map[])
    else
      var raw := map k | k in fieldNames :: RawUserValue(userArg.value, users, pendingIdentities, k);
      if "title" !in raw then Err("title")
      else Ok(raw["title" := titleUuid(raw["title"])])
  }

  /** The Indico user a numeric argument names, when one exists and is not deleted. */
  function FoundUser(arg: string, users: map<nat, User>): Option<User>
    requires IsDigits(arg)
  {
    var id := DigitsValue(arg);
    if id in users && !users[id].isDeleted then Some(users[id]) else None
  }

  /** The value of one personal-data field before the title is mapped. */
  function RawUserValue(arg: string, users: map<nat, User>, pendingIdentities: map<string, map<string, string>>,
                        name: string): Option<string>
  {
    if IsDigits(arg) then
      match FoundUser(arg, users)
      case None => Some("")
      case Some(u) => if name in u.attributes then Some(u.attributes[name]) else None
    else
      var data := if arg in pendingIdentities then pendingIdentities[arg] else map[];
      if name in data then Some(data[name]) else None
  }

  /** For a numeric argument naming no user, every field but the title is
      the empty string; a pending identity that is not cached fills none. */
  lemma UnknownUserGivesEmptyValues(arg: string, users: map<nat, User>, pendingIdentities: map<string, map<string, string>>,
                                    fieldNames: set<string>, titleUuid: Option<string> -> Option<string>)
    requires "title" in fieldNames
    ensures var r := GetUserData(Some(arg), users, pendingIdentities, fieldNames, titleUuid);
      (IsDigits(arg) && FoundUser(arg, users).None? ==>
         r.Ok? && forall k :: k in fieldNames && k != "title" ==> r.value[k] == Some(""))
      && (!IsDigits(arg) && arg !in pendingIdentities ==>
         r.Ok? && forall k :: k in fieldNames && k != "title" ==> r.value[k].None?)
  {
  }
}
