/** The HR leave-request screen (`HRLeaveRequests.jsx`). */
module HRLeaveRequests {
  import opened Wrappers
  import opened Records
  import opened Store

  /** The target statuses offered for a leave request: Approve and Reject, only while pending. */
  function LeaveActions(status: string): (r: seq<string>)
    ensures |r| <= 2 && PENDING !in r && status !in r
  {
    if status == PENDING then [APPROVED, DENIED] else []
  }

  /** Approve sends `approved`, Reject sends `denied`, both only from `pending`; an approved
      or denied request offers nothing, so this screen never moves a request out of a
      decided state. */
  lemma LeaveActionsSpec(status: string, target: string)
    ensures target in LeaveActions(status) <==> status == PENDING && (target == APPROVED || target == DENIED)
    ensures LeaveActions(APPROVED) == [] && LeaveActions(DENIED) == []
  {
  }

  /** `getEmployeeName`: the name of the first employee with that id, else `'Unknown'`. */
  function EmployeeName(employees: seq<Employee>, employeeId: nat): (r: string)
    ensures (forall i :: 0 <= i < |employees| ==> employees[i].id != employeeId) ==> r == "Unknown"
    ensures forall k :: (0 <= k < |employees| && employees[k].id == employeeId
                         && forall j :: 0 <= j < k ==> employees[j].id != employeeId) ==> r == employees[k].info.name
  {
    if |employees| == 0 then "Unknown"
    else if employees[0].id == employeeId then employees[0].info.name
    else
      assert forall i :: 1 <= i < |employees| ==> employees[i] == employees[1..][i - 1];
      EmployeeName(employees[1..], employeeId)
  }

  /** The component's state. */
  class LeaveRequestsScreen {
    var employees: seq<Employee>
    var leaveRequests: seq<LeaveRequest>
    var isLoading: bool
    var error: string

    constructor ()
      ensures employees == [] && leaveRequests == [] && isLoading && error == ""
    {
      employees := [];
      leaveRequests := [];
      isLoading := true;
      error := "";
    }

    /** `fetchData`: read both collections; both lists are replaced only when both reads
        succeed. */
    method FetchData(employeeStore: EmployeeStore, leaveStore: RequestStore<LeaveDetails>)
      modifies this
      ensures !isLoading
      ensures employeeStore.available && leaveStore.available ==>
                employees == employeeStore.records && leaveRequests == leaveStore.records && error == old(error)
      ensures !(employeeStore.available && leaveStore.available) ==>
                employees == old(employees) && leaveRequests == old(leaveRequests) && error == "Failed to load data."
    {
      isLoading := true;
      var es := employeeStore.All();
      var ls := leaveStore.All();
      if es.Done? && ls.Done? {
        employees := es.value;
        leaveRequests := ls.value;
      } else {
        error := "Failed to load data.";
      }
      isLoading := false;
    }

    /** `handleStatusUpdate`: patch the store and then re-read both lists rather than patch
        locally; a failed patch sets the error and leaves both lists alone. */
    method HandleStatusUpdate(employeeStore: EmployeeStore, leaveStore: RequestStore<LeaveDetails>, id: nat, status: string)
      requires leaveStore.Valid()
      modifies this, leaveStore`records
      ensures leaveStore.Valid()
      ensures old(leaveStore.available) && HasId(old(leaveStore.records), id) ==>
                && leaveStore.records == WithStatus(old(leaveStore.records), id, status)
                && !isLoading
                && (employeeStore.available ==>
                      employees == employeeStore.records && leaveRequests == leaveStore.records && error == old(error))
                && (!employeeStore.available ==>
                      employees == old(employees) && leaveRequests == old(leaveRequests) && error == "Failed to load data.")
      ensures !(old(leaveStore.available) && HasId(old(leaveStore.records), id)) ==>
                && leaveStore.records == old(leaveStore.records)
                && employees == old(employees) && leaveRequests == old(leaveRequests) && isLoading == old(isLoading)
                && error == "Failed to update leave request status."
    {
      var r := leaveStore.UpdateStatus(id, status);
      if r.Done? {
        FetchData(employeeStore, leaveStore);
      } else {
        error := "Failed to update leave request status.";
      }
    }

    /** The name shown in a row's Employee column. */
    function RowName(request: LeaveRequest): string
      reads this
    {
      EmployeeName(employees, request.employeeId)
    }
  }
}
