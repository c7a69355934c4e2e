/** The portal's records: employees and the two kinds of request, as the store keeps them. */
module Records {
  import opened Wrappers
  import opened Counting

  const PENDING := "pending"
  const APPROVED := "approved"
  const DENIED := "denied"
  const IN_PROGRESS := "in-progress"
  const RESOLVED := "resolved"

  /** An employee's fields other than the store-assigned id. `status` and
      `employmentType` are absent on records created through the signup form. */
  datatype EmployeeData = EmployeeData(
    name: string,
    email: string,
    phone: string,
    department: string,
    title: string,
    startDate: string,
    status: Option<string>,
    employmentType: Option<string>)

  datatype Employee = Employee(id: nat, info: EmployeeData)

  /** The fields specific to a leave request. */
  datatype LeaveDetails = LeaveDetails(startDate: string, endDate: string, reason: string)

  /** The fields specific to a service request; `employeeName` is a snapshot that may be missing. */
  datatype ServiceDetails = ServiceDetails(employeeName: Option<string>, requestType: string, description: string)

  /** A stored request. `createdAt` is the instant of creation in milliseconds, absent on
      records that were not created through the API. */
  datatype Request<P> = Request(id: nat, employeeId: nat, status: string, createdAt: Option<int>, details: P)

  type LeaveRequest = Request<LeaveDetails>
  type ServiceRequest = Request<ServiceDetails>

  /** What a client posts to create a request: every field but the id. */
  datatype RequestBody<P> = RequestBody(employeeId: nat, status: string, createdAt: Option<int>, details: P)

  /** What a caller hands to the create function: it may carry its own `status` and `createdAt`. */
  datatype RequestInput<P> = RequestInput(employeeId: nat, status: Option<string>, createdAt: Option<int>, details: P)

  /** The record the store makes of a posted body under the id it assigns. */
  function Stored<P>(id: nat, b: RequestBody<P>): Request<P> {
    Request(id, b.employeeId, b.status, b.createdAt, b.details)
  }

  /** `list.map(r => r.id === id ? { ...r, status } : r)`: the records with that id get the
      new status and nothing else changes. */
  function WithStatus<P>(rs: seq<Request<P>>, id: nat, status: string): (r: seq<Request<P>>)
    ensures |r| == |rs|
    ensures forall i :: 0 <= i < |rs| ==>
              r[i] == if rs[i].id == id then rs[i].(status := status) else rs[i]
  {
    seq(|rs|, i requires 0 <= i < |rs| => if rs[i].id == id then rs[i].(status := status) else rs[i])
  }

  /** Ids are pairwise distinct. */
  ghost predicate UniqueIds<P>(rs: seq<Request<P>>) {
    forall i, j :: 0 <= i < j < |rs| ==> rs[i].id != rs[j].id
  }

  predicate HasId<P>(rs: seq<Request<P>>, id: nat) {
    exists i :: 0 <= i < |rs| && rs[i].id == id
  }

  /** Patching one status changes the status of the record with that id (one record when ids
      are unique) and leaves every id, creation stamp, owner and detail as it was. */
  lemma WithStatusChangesOnlyStatus<P>(rs: seq<Request<P>>, id: nat, status: string)
    requires UniqueIds(rs)
    ensures UniqueIds(WithStatus(rs, id, status))
    ensures forall i :: 0 <= i < |rs| ==>
              var r := WithStatus(rs, id, status)[i];
              r.id == rs[i].id && r.employeeId == rs[i].employeeId && r.createdAt == rs[i].createdAt
              && r.details == rs[i].details
              && r.status == (if rs[i].id == id then status else rs[i].status)
    ensures forall i, j :: 0 <= i < |rs| && 0 <= j < |rs| && rs[i].id == id && rs[j].id == id ==> i == j
  {
  }

  /** Applying the same patch twice is applying it once. */
  lemma WithStatusIdempotent<P>(rs: seq<Request<P>>, id: nat, status: string)
    ensures WithStatus(WithStatus(rs, id, status), id, status) == WithStatus(rs, id, status)
  {
  }

  /** A patch for an id that no record has changes nothing. */
  lemma WithStatusAbsentId<P>(rs: seq<Request<P>>, id: nat, status: string)
    requires !HasId(rs, id)
    ensures WithStatus(rs, id, status) == rs
  {
  }

  /** `GET /resource?employeeId=e`: the records whose owner is `e`, in store order. */
  function SelectByEmployee<P>(rs: seq<Request<P>>, employeeId: nat): (r: seq<Request<P>>)
    ensures |r| <= |rs|
  {
    if |rs| == 0 then []
    else (if rs[0].employeeId == employeeId then [rs[0]] else []) + SelectByEmployee(rs[1..], employeeId)
  }

  /** Exact-match selection: a matching record occurs as often as in the input, any other
      record not at all. */
  lemma {:induction false} SelectByEmployeeSpec<P(!new)>(rs: seq<Request<P>>, employeeId: nat)
    ensures forall x :: multiset(SelectByEmployee(rs, employeeId))[x] == if x.employeeId == employeeId then multiset(rs)[x] else 0
  {
    if |rs| > 0 {
      assert rs == [rs[0]] + rs[1..];
      SelectByEmployeeSpec(rs[1..], employeeId);
    }
  }

  /** The position of the first record with id `id`, if any (`Array.prototype.findIndex`). */
  function FindById<P>(rs: seq<Request<P>>, id: nat): (r: Option<nat>)
    ensures r.Some? <==> HasId(rs, id)
    ensures r.Some? ==> r.value < |rs| && rs[r.value].id == id
    ensures r.Some? ==> forall k :: 0 <= k < r.value ==> rs[k].id != id
  {
    if |rs| == 0 then None
    else if rs[0].id == id then Some(0)
    else match FindById(rs[1..], id)
      case None => None
      case Some(k) => Some(k + 1)
  }

  /** A number above every id in `ids`: the first id the store hands out. */
  function IdBound(ids: seq<nat>): (n: nat)
    ensures forall i :: 0 <= i < |ids| ==> ids[i] < n
  {
    if |ids| == 0 then 0
    else
      var m := IdBound(ids[1..]);
      assert forall i :: 1 <= i < |ids| ==> ids[i] == ids[1..][i - 1];
      if ids[0] < m then m else ids[0] + 1
  }

  /** Employee ids are pairwise distinct. */
  ghost predicate UniqueEmployeeIds(es: seq<Employee>) {
    forall i, j :: 0 <= i < j < |es| ==> es[i].id != es[j].id
  }

  /** `GET /employees?email=e`: the employees whose email is exactly `e`, in store order. */
  function SelectByEmail(es: seq<Employee>, email: string): (r: seq<Employee>)
    ensures |r| <= |es|
  {
    if |es| == 0 then []
    else (if es[0].info.email == email then [es[0]] else []) + SelectByEmail(es[1..], email)
  }

  /** Exact-match selection on the email, with the same characterisation. */
  lemma {:induction false} SelectByEmailSpec(es: seq<Employee>, email: string)
    ensures forall x :: multiset(SelectByEmail(es, email))[x] == if x.info.email == email then multiset(es)[x] else 0
  {
    if |es| > 0 {
      assert es == [es[0]] + es[1..];
      SelectByEmailSpec(es[1..], email);
    }
  }

  /** Selection keeps store order: it distributes over concatenation. */
  lemma {:induction false} SelectByEmailAppend(a: seq<Employee>, b: seq<Employee>, email: string)
    ensures SelectByEmail(a + b, email) == SelectByEmail(a, email) + SelectByEmail(b, email)
  {
    if |a| == 0 {
      assert a + b == b;
    } else {
      var h := if a[0].info.email == email then [a[0]] else [];
      assert (a + b)[0] == a[0] && (a + b)[1..] == a[1..] + b;
      SelectByEmailAppend(a[1..], b, email);
      var x, y := SelectByEmail(a[1..], email), SelectByEmail(b, email);
      assert SelectByEmail(a + b, email) == h + (x + y);
      assert h + (x + y) == (h + x) + y;
    }
  }


  /** Selection keeps store order: it distributes over concatenation. */
  lemma {:induction false} SelectByEmployeeAppend<P>(a: seq<Request<P>>, b: seq<Request<P>>, employeeId: nat)
    ensures SelectByEmployee(a + b, employeeId) == SelectByEmployee(a, employeeId) + SelectByEmployee(b, employeeId)
  {
    if |a| == 0 {
      assert a + b == b;
    } else {
      var h := if a[0].employeeId == employeeId then [a[0]] else [];
      assert (a + b)[0] == a[0] && (a + b)[1..] == a[1..] + b;
      SelectByEmployeeAppend(a[1..], b, employeeId);
      var x, y := SelectByEmployee(a[1..], employeeId), SelectByEmployee(b, employeeId);
      assert SelectByEmployee(a + b, employeeId) == h + (x + y);
      assert h + (x + y) == (h + x) + y;
    }
  }


  // ---------------------------------------------------------------- status counts

  /** `requests.filter(r => r.status === status).length`. */
  function CountStatus<P>(rs: seq<Request<P>>, status: string): (n: nat)
    ensures n <= |rs|
  {
    Count(rs, (r: Request<P>) => r.status == status)
  }

  /** Counts of two different statuses never exceed the number of requests. */
  lemma CountStatus2<P>(rs: seq<Request<P>>, s1: string, s2: string)
    requires s1 != s2
    ensures CountStatus(rs, s1) + CountStatus(rs, s2) <= |rs|
  {
    CountExclusive2(rs, (r: Request<P>) => r.status == s1, (r: Request<P>) => r.status == s2);
  }

  /** Counts of three different statuses never exceed the number of requests, and add up to
      it exactly when every request has one of the three. */
  lemma CountStatus3<P>(rs: seq<Request<P>>, s1: string, s2: string, s3: string)
    requires s1 != s2 && s1 != s3 && s2 != s3
    ensures CountStatus(rs, s1) + CountStatus(rs, s2) + CountStatus(rs, s3) <= |rs|
    ensures (forall i :: 0 <= i < |rs| ==> rs[i].status in {s1, s2, s3}) ==>
              CountStatus(rs, s1) + CountStatus(rs, s2) + CountStatus(rs, s3) == |rs|
  {
    CountExclusive3(rs, (r: Request<P>) => r.status == s1, (r: Request<P>) => r.status == s2,
                    (r: Request<P>) => r.status == s3);
  }

  /** A status count is zero exactly when no request has that status. */
  lemma CountStatusZeroIff<P>(rs: seq<Request<P>>, status: string)
    ensures CountStatus(rs, status) == 0 <==> forall i :: 0 <= i < |rs| ==> rs[i].status != status
  {
    CountZeroIff(rs, (r: Request<P>) => r.status == status);
  }
}
