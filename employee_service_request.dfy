/** The employee's service-request screen (`EmployeeServiceRequest.jsx`): form validation,
    the request it submits, and the employee's own request summary. */
module EmployeeServiceRequest {
  import opened Wrappers
  import opened Text
  import opened Records
  import opened Store
  import opened RequestsApi
  import opened AuthContext

  /** The choices the request-type menu offers. */
  const REQUEST_TYPES := [
    "Update Personal Info", "HR Support", "IT Support", "Payroll Inquiry",
    "Benefits Question", "Training Request", "Equipment Request", "Other"]

  datatype FormData = FormData(requestType: string, description: string)

  const EMPTY_FORM := FormData("", "")

  const SELECT_TYPE := "Please select a request type"
  const PROVIDE_DESCRIPTION := "Please provide a description"
  const SUBMIT_FAILED := "Failed to submit request. Please try again."

  /** The two early returns of `handleSubmit`: the message shown, or `None` to go ahead.
      `!description.trim()` is written as "every character is white space", which
      `ValidateSpec` shows to be the same test. */
  function Validate(form: FormData): (r: Option<string>)
    ensures r.Some? ==> r.value == SELECT_TYPE || r.value == PROVIDE_DESCRIPTION
  {
    if form.requestType == "" then Some(SELECT_TYPE)
    else if AllSpace(form.description) then Some(PROVIDE_DESCRIPTION)
    else None
  }

  /** The type is checked first and only for being non-empty, not for being one of the
      menu's choices; the description is refused exactly when it is all white space. */
  lemma ValidateSpec(form: FormData)
    ensures Validate(form) == Some(SELECT_TYPE) <==> form.requestType == ""
    ensures Validate(form) == Some(PROVIDE_DESCRIPTION) <==> form.requestType != "" && Trim(form.description) == ""
    ensures Validate(form) == Some(PROVIDE_DESCRIPTION) <==>
              form.requestType != "" && forall i :: 0 <= i < |form.description| ==> IsSpace(form.description[i])
    ensures Validate(form) == None <==>
              form.requestType != "" && exists i :: 0 <= i < |form.description| && !IsSpace(form.description[i])
  {
    TrimEmptyIff(form.description);
  }

  /** A type outside the menu passes validation as long as it is non-empty. */
  lemma TypeNotCheckedAgainstMenu(form: FormData)
    requires form.requestType != "" && form.requestType !in REQUEST_TYPES
    requires exists i :: 0 <= i < |form.description| && !IsSpace(form.description[i])
    ensures Validate(form) == None
  {
    ValidateSpec(form);
  }

  /** What `handleSubmit` passes to `createServiceRequest`: the session user's id and name,
      the chosen type and the description as typed, untrimmed. */
  function SubmittedInput(user: SessionUser, form: FormData): (r: RequestInput<ServiceDetails>)
    ensures r.employeeId == user.account.id && r.status == None && r.createdAt == None
    ensures r.details == ServiceDetails(Some(user.account.name), form.requestType, form.description)
  {
    RequestInput(user.account.id, None, None, ServiceDetails(Some(user.account.name), form.requestType, form.description))
  }

  class ServiceRequestScreen {
    var formData: FormData
    var error: string
    var isLoading: bool
    var success: bool
    var requests: seq<ServiceRequest>
    var requestsLoading: bool

    constructor ()
      ensures formData == EMPTY_FORM && error == "" && !isLoading && !success
      ensures requests == [] && requestsLoading
    {
      formData := EMPTY_FORM;
      error := "";
      isLoading := false;
      success := false;
      requests := [];
      requestsLoading := true;
    }

    /** `fetchRequests`: only for a signed-in user with a non-zero id; a failed read is
        ignored apart from ending the loading state. */
    method FetchRequests(store: RequestStore<ServiceDetails>, user: Option<SessionUser>)
      modifies this`requests, this`requestsLoading
      ensures user.Some? && user.value.account.id != 0 ==>
                && !requestsLoading
                && (store.available ==> requests == SelectByEmployee(store.records, user.value.account.id))
                && (!store.available ==> requests == old(requests))
      ensures !(user.Some? && user.value.account.id != 0) ==>
                requests == old(requests) && requestsLoading == old(requestsLoading)
    {
      if user.Some? && user.value.account.id != 0 {
        var data := store.ByEmployeeId(user.value.account.id);
        if data.Done? {
          requests := data.value;
        }
        requestsLoading := false;
      }
    }

    /** `handleSubmit`. A form that fails validation sets only the message. A valid form is
        submitted; with no user the body cannot be built and the submission fails like a
        refused one. A failure keeps what was typed. */
    method HandleSubmit(store: RequestStore<ServiceDetails>, user: Option<SessionUser>, now: int)
      requires store.Valid()
      modifies this`formData, this`error, this`isLoading, this`success, this`requests, this`requestsLoading
      modifies store`records, store`nextId
      ensures store.Valid()
      ensures Validate(old(formData)).Some? ==>
                && error == Validate(old(formData)).value
                && formData == old(formData) && isLoading == old(isLoading) && success == old(success)
                && requests == old(requests) && requestsLoading == old(requestsLoading)
                && store.records == old(store.records) && store.nextId == old(store.nextId)
      ensures Validate(old(formData)).None? && !(user.Some? && old(store.available)) ==>
                && error == SUBMIT_FAILED && !isLoading
                && formData == old(formData) && success == old(success)
                && requests == old(requests) && requestsLoading == old(requestsLoading)
                && store.records == old(store.records) && store.nextId == old(store.nextId)
      ensures Validate(old(formData)).None? && user.Some? && old(store.available) ==>
                && store.records == old(store.records)
                     + [Stored(old(store.nextId), CreateBody(SubmittedInput(user.value, old(formData)), now))]
                && error == "" && !isLoading && success && formData == EMPTY_FORM
                && (user.value.account.id != 0 ==>
                      requests == SelectByEmployee(store.records, user.value.account.id) && !requestsLoading)
                && (user.value.account.id == 0 ==> requests == old(requests))
    {
      error := "";
      var invalid := Validate(formData);
      if invalid.Some? {
        error := invalid.value;
        return;
      }
      isLoading := true;
      if user.None? {
        error := SUBMIT_FAILED;
      } else {
        Submit(store, user.value, now);
      }
      isLoading := false;
    }

    /** The `try` block of `handleSubmit` for a valid form and a signed-in user. */
    method Submit(store: RequestStore<ServiceDetails>, user: SessionUser, now: int)
      requires store.Valid()
      modifies this`formData, this`error, this`success, this`requests, this`requestsLoading
      modifies store`records, store`nextId
      ensures store.Valid()
      ensures old(store.available) ==>
                && store.records == old(store.records) + [Stored(old(store.nextId), CreateBody(SubmittedInput(user, old(formData)), now))]
                && error == old(error) && success && formData == EMPTY_FORM
                && (user.account.id != 0 ==> requests == SelectByEmployee(store.records, user.account.id) && !requestsLoading)
                && (user.account.id == 0 ==> requests == old(requests))
      ensures !old(store.available) ==>
                && error == SUBMIT_FAILED && formData == old(formData) && success == old(success)
                && requests == old(requests) && requestsLoading == old(requestsLoading)
                && store.records == old(store.records) && store.nextId == old(store.nextId)
    {
      var created := CreateRequest(store, SubmittedInput(user, formData), now);
      if created.Done? {
        success := true;
        formData := EMPTY_FORM;
        FetchRequests(store, Some(user));
      } else {
        error := SUBMIT_FAILED;
      }
    }

    /** The Total, Pending and Resolved cards of the Request Summary. */
    function Summary(): (r: (nat, nat, nat))
      reads this
      ensures r.0 == |requests| && r.1 + r.2 <= r.0
      ensures r.1 == CountStatus(requests, PENDING) && r.2 == CountStatus(requests, RESOLVED)
    {
      CountStatus2(requests, PENDING, RESOLVED);
      (|requests|, CountStatus(requests, PENDING), CountStatus(requests, RESOLVED))
    }
  }

  /** Right after a successful submission by a user with a non-zero id, the summary lists the
      new request last, as pending. */
  lemma {:induction false} SubmittedRequestIsListed(records: seq<ServiceRequest>, id: nat, user: SessionUser,
                                                    form: FormData, now: int)
    requires user.account.id != 0
    ensures var created := Stored(id, CreateBody(SubmittedInput(user, form), now));
            var listed := SelectByEmployee(records + [created], user.account.id);
            |listed| > 0 && listed[|listed| - 1] == created && created.status == PENDING
  {
    var created := Stored(id, CreateBody(SubmittedInput(user, form), now));
    CreatedRequestListedLast(records, created, user.account.id);
  }
}
