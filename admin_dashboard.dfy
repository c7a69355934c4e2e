/** The admin dashboard (`AdminDashboard.jsx`): leave-request figures over the whole store. */
module AdminDashboard {
  import opened Wrappers
  import opened Records

  datatype AdminStats = AdminStats(totalEmployees: nat, totalLeaveRequests: nat, pendingRequests: nat,
                                   approvedRequests: nat, deniedRequests: nat)

  const ZERO_STATS := AdminStats(0, 0, 0, 0, 0)

  /** The figures computed from the two collections. */
  function ComputeStats(employees: seq<Employee>, leaves: seq<LeaveRequest>): (s: AdminStats)
    ensures s.totalEmployees == |employees| && s.totalLeaveRequests == |leaves|
    ensures s.pendingRequests == CountStatus(leaves, PENDING)
    ensures s.approvedRequests == CountStatus(leaves, APPROVED)
    ensures s.deniedRequests == CountStatus(leaves, DENIED)
  {
    AdminStats(|employees|, |leaves|, CountStatus(leaves, PENDING), CountStatus(leaves, APPROVED),
               CountStatus(leaves, DENIED))
  }

  /** The three status figures never exceed the total, and fill it exactly when every leave
      request is pending, approved or denied. */
  lemma StatusFiguresSpec(employees: seq<Employee>, leaves: seq<LeaveRequest>)
    ensures var s := ComputeStats(employees, leaves);
            s.pendingRequests + s.approvedRequests + s.deniedRequests <= s.totalLeaveRequests
    ensures var s := ComputeStats(employees, leaves);
            (forall i :: 0 <= i < |leaves| ==> leaves[i].status in {PENDING, APPROVED, DENIED}) ==>
              s.pendingRequests + s.approvedRequests + s.deniedRequests == s.totalLeaveRequests
  {
    CountStatus3(leaves, PENDING, APPROVED, DENIED);
  }

  /** The screen's state after the mount effect: the figures of the two lists when both reads
      succeeded, the initial zeros when either failed, and never still loading. */
  function AfterFetch(fetched: Fetch<(seq<Employee>, seq<LeaveRequest>)>): (r: (AdminStats, bool))
    ensures !r.1
    ensures fetched.Failed? ==> r.0 == ZERO_STATS
    ensures fetched.Done? ==> r.0 == ComputeStats(fetched.value.0, fetched.value.1)
  {
    match fetched
    case Failed => (ZERO_STATS, false)
    case Done((employees, leaves)) => (ComputeStats(employees, leaves), false)
  }
}
