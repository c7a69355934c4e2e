/** The REST resource store the client talks to, seen from the client: collections of records
    addressed by id and filtered by exact-match query parameters. Transport failure (a
    rejected `fetch`, a non-2xx answer) is the store being `available == false`. */
module Store {
  import opened Wrappers
  import opened Records

  /** The `/leaveRequests` or `/serviceRequests` collection. */
  class RequestStore<P(!new)> {
    var records: seq<Request<P>>
    var nextId: nat
    var available: bool

    ghost predicate Valid()
      reads this
    {
      UniqueIds(records) && forall i :: 0 <= i < |records| ==> records[i].id < nextId
    }

    constructor (initial: seq<Request<P>>, available: bool)
      requires UniqueIds(initial)
      ensures Valid() && records == initial && this.available == available
    {
      records := initial;
      var ids := seq(|initial|, i requires 0 <= i < |initial| => initial[i].id);
      assert forall i :: 0 <= i < |initial| ==> initial[i].id == ids[i];
      nextId := IdBound(ids);
      this.available := available;
    }

    /** `GET /resource`. */
    method All() returns (r: Fetch<seq<Request<P>>>)
      ensures r == if available then Done(records) else Failed
    {
      r := if available then Done(records) else Failed;
    }

    /** `GET /resource?employeeId=e`. */
    method ByEmployeeId(employeeId: nat) returns (r: Fetch<seq<Request<P>>>)
      ensures r == if available then Done(SelectByEmployee(records, employeeId)) else Failed
    {
      r := if available then Done(SelectByEmployee(records, employeeId)) else Failed;
    }

    /** `POST /resource`: the body is stored under a fresh id and the stored record returned. */
    method Create(body: RequestBody<P>) returns (r: Fetch<Request<P>>)
      requires Valid()
      modifies this`records, this`nextId
      ensures Valid()
      ensures old(available) ==> r == Done(Stored(old(nextId), body)) && records == old(records) + [r.value]
      ensures !old(available) ==> r == Failed && records == old(records) && nextId == old(nextId)
      ensures forall i :: 0 <= i < |old(records)| ==> old(records)[i].id != old(nextId)
    {
      if available {
        var rec := Stored(nextId, body);
        records := records + [rec];
        nextId := nextId + 1;
        r := Done(rec);
      } else {
        r := Failed;
      }
    }

    /** `PATCH /resource/{id}` with `{ status }`: only that record's status changes. An id that
        no record has is a 404, which the client sees as a failure. */
    method UpdateStatus(id: nat, status: string) returns (r: Fetch<Request<P>>)
      requires Valid()
      modifies this`records
      ensures Valid()
      ensures old(available) && HasId(old(records), id) ==>
                records == WithStatus(old(records), id, status)
                && r.Done? && r.value.id == id && r.value.status == status && r.value in records
      ensures !(old(available) && HasId(old(records), id)) ==> r == Failed && records == old(records)
    {
      var k := FindById(records, id);
      if available && k.Some? {
        var updated := records[k.value].(status := status);
        WithStatusChangesOnlyStatus(records, id, status);
        records := WithStatus(records, id, status);
        assert records[k.value] == updated;
        r := Done(updated);
      } else {
        r := Failed;
      }
    }
  }

  /** The `/employees` collection. */
  class EmployeeStore {
    var records: seq<Employee>
    var nextId: nat
    var available: bool

    ghost predicate Valid()
      reads this
    {
      UniqueEmployeeIds(records) && forall i :: 0 <= i < |records| ==> records[i].id < nextId
    }

    constructor (initial: seq<Employee>, available: bool)
      requires UniqueEmployeeIds(initial)
      ensures Valid() && records == initial && this.available == available
    {
      records := initial;
      var ids := seq(|initial|, i requires 0 <= i < |initial| => initial[i].id);
      assert forall i :: 0 <= i < |initial| ==> initial[i].id == ids[i];
      nextId := IdBound(ids);
      this.available := available;
    }

    /** `GET /employees`. */
    method All() returns (r: Fetch<seq<Employee>>)
      ensures r == if available then Done(records) else Failed
    {
      r := if available then Done(records) else Failed;
    }

    /** `GET /employees?email=e`. */
    method WithEmail(email: string) returns (r: Fetch<seq<Employee>>)
      ensures r == if available then Done(SelectByEmail(records, email)) else Failed
    {
      r := if available then Done(SelectByEmail(records, email)) else Failed;
    }

    /** `POST /employees`: the data is stored under a fresh id. */
    method Create(data: EmployeeData) returns (r: Fetch<Employee>)
      requires Valid()
      modifies this`records, this`nextId
      ensures Valid()
      ensures old(available) ==> r == Done(Employee(old(nextId), data)) && records == old(records) + [r.value]
      ensures !old(available) ==> r == Failed && records == old(records) && nextId == old(nextId)
    {
      if available {
        var e := Employee(nextId, data);
        records := records + [e];
        nextId := nextId + 1;
        r := Done(e);
      } else {
        r := Failed;
      }
    }
  }
}
