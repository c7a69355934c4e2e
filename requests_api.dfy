/** The request API modules (`leaveRequests.js`, `serviceRequests.js`): each builds a request
    body by object spread and hands it to the store. The two files are the same code over
    different record types, so they are modelled once, generically in the request details. */
module RequestsApi {
  import opened Wrappers
  import opened Records
  import opened Store

  /** `{ ...input, status: 'pending', createdAt: now }`: the overrides come after the spread,
      so whatever status or stamp the caller supplied is replaced. `now` stands for the clock. */
  function CreateBody<P>(input: RequestInput<P>, now: int): RequestBody<P> {
    RequestBody(input.employeeId, PENDING, Some(now), input.details)
  }

  /** A created body is pending and stamped with `now`, and carries the caller's owner and
      details unchanged. */
  lemma CreateBodyContents<P>(input: RequestInput<P>, now: int)
    ensures var b := CreateBody(input, now);
            b.status == PENDING && b.createdAt == Some(now)
            && b.employeeId == input.employeeId && b.details == input.details
  {
  }

  /** The caller's own `status` and `createdAt` have no effect on what is posted. */
  lemma CreateBodyIgnoresCallerStatus<P>(input: RequestInput<P>, s1: Option<string>, s2: Option<string>,
                                         c1: Option<int>, c2: Option<int>, now: int)
    ensures CreateBody(input.(status := s1, createdAt := c1), now) == CreateBody(input.(status := s2, createdAt := c2), now)
  {
  }

  /** `createLeaveRequest` / `createServiceRequest`: post the built body. */
  method CreateRequest<P(!new)>(store: RequestStore<P>, input: RequestInput<P>, now: int) returns (r: Fetch<Request<P>>)
    requires store.Valid()
    modifies store`records, store`nextId
    ensures store.Valid()
    ensures old(store.available) ==>
              r.Done? && r.value.status == PENDING && r.value.createdAt == Some(now)
              && r.value.employeeId == input.employeeId && r.value.details == input.details
              && store.records == old(store.records) + [r.value]
              && !HasId(old(store.records), r.value.id) && r.value.id == old(store.nextId)
    ensures !old(store.available) ==> r.Failed? && store.records == old(store.records) && store.nextId == old(store.nextId)
  {
    r := store.Create(CreateBody(input, now));
  }

  /** A newly created request is the last entry of its owner's by-employee list, and every
      other employee's list is unchanged. */
  lemma {:induction false} CreatedRequestListedLast<P(!new)>(records: seq<Request<P>>, created: Request<P>, employeeId: nat)
    ensures SelectByEmployee(records + [created], employeeId)
            == SelectByEmployee(records, employeeId) + (if created.employeeId == employeeId then [created] else [])
  {
    SelectByEmployeeAppend(records, [created], employeeId);
    assert [created][1..] == [];
  }

  /** A leave request body keeps the caller's dates and reason. */
  lemma LeaveBodyKeepsFields(input: RequestInput<LeaveDetails>, now: int)
    ensures var b := CreateBody(input, now);
            b.details.startDate == input.details.startDate && b.details.endDate == input.details.endDate
            && b.details.reason == input.details.reason && b.status == PENDING
  {
  }

  /** A service request body keeps the caller's owner, name snapshot, type and description. */
  lemma ServiceBodyKeepsFields(input: RequestInput<ServiceDetails>, now: int)
    ensures var b := CreateBody(input, now);
            b.employeeId == input.employeeId && b.details.employeeName == input.details.employeeName
            && b.details.requestType == input.details.requestType
            && b.details.description == input.details.description && b.status == PENDING
  {
  }
}
