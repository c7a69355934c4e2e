/** The HR service-request screen (`HRServiceRequests.jsx`): its component state, the status
    changes its Actions column offers, and how it reconciles a status change locally. */
module HRServiceRequests {
  import opened Wrappers
  import opened Records
  import opened Store
  import opened ServiceRequestQueries

  /** The target statuses the Actions column offers for a request in `status`. */
  function ServiceActions(status: string): (r: seq<string>)
    ensures |r| <= 2 && PENDING !in r && status !in r
  {
    if status == PENDING then [IN_PROGRESS, RESOLVED]
    else if status == IN_PROGRESS then [RESOLVED]
    else []
  }

  predicate Offered(from: string, to: string) {
    to in ServiceActions(from)
  }

  /** The offered changes are exactly pending to in-progress, pending to resolved and
      in-progress to resolved; a resolved request (or any other status) offers none. */
  lemma OfferedTransitions(from: string, to: string)
    ensures Offered(from, to) <==>
              (from == PENDING && to == IN_PROGRESS) || (from == PENDING && to == RESOLVED)
              || (from == IN_PROGRESS && to == RESOLVED)
    ensures ServiceActions(RESOLVED) == []
  {
  }

  /** How far along the lifecycle a status is. */
  function Stage(status: string): nat {
    if status == PENDING then 0 else if status == IN_PROGRESS then 1 else 2
  }

  /** A run of statuses in which each step is one the screen offers. */
  predicate OfferedPath(ss: seq<string>) {
    forall i :: 0 <= i < |ss| - 1 ==> Offered(ss[i], ss[i + 1])
  }

  /** Offered changes only move forward, so a request passes through at most three statuses
      and nothing follows `resolved`: there is no way back. */
  lemma {:induction false} OfferedPathsMoveForward(ss: seq<string>)
    requires |ss| > 0 && OfferedPath(ss)
    ensures forall i, j :: 0 <= i < j < |ss| ==> Stage(ss[i]) < Stage(ss[j])
    ensures |ss| <= 3 - Stage(ss[0])
    ensures ss[0] == RESOLVED ==> |ss| == 1
  {
    if |ss| > 1 {
      assert Offered(ss[0], ss[1]);
      assert OfferedPath(ss[1..]) by {
        forall i | 0 <= i < |ss[1..]| - 1 ensures Offered(ss[1..][i], ss[1..][i + 1]) {
          assert Offered(ss[i + 1], ss[i + 2]);
        }
      }
      OfferedPathsMoveForward(ss[1..]);
      forall i, j | 0 <= i < j < |ss| ensures Stage(ss[i]) < Stage(ss[j]) {
        if i > 0 {
          assert Stage(ss[1..][i - 1]) < Stage(ss[1..][j - 1]);
        } else if j > 1 {
          assert Stage(ss[1..][0]) < Stage(ss[1..][j - 1]);
        }
      }
    }
  }

  /** The component's state. */
  class ServiceRequestsScreen {
    var serviceRequests: seq<ServiceRequest>
    var isLoading: bool
    var error: string
    var sortConfig: SortConfig
    var filterStatus: string
    var filterType: string

    constructor ()
      ensures serviceRequests == [] && isLoading && error == ""
      ensures sortConfig == INITIAL_SORT && filterStatus == ALL && filterType == ALL
    {
      serviceRequests := [];
      isLoading := true;
      error := "";
      sortConfig := INITIAL_SORT;
      filterStatus := ALL;
      filterType := ALL;
    }

    /** `fetchServiceRequests`: load the whole collection; on failure keep the list and say so. */
    method FetchServiceRequests(store: RequestStore<ServiceDetails>)
      modifies this`serviceRequests, this`error, this`isLoading
      ensures !isLoading
      ensures store.available ==> serviceRequests == store.records && error == old(error)
      ensures !store.available ==> serviceRequests == old(serviceRequests) && error == "Failed to load service requests."
    {
      var data := store.All();
      if data.Done? {
        serviceRequests := data.value;
      } else {
        error := "Failed to load service requests.";
      }
      isLoading := false;
    }

    /** `handleStatusUpdate`: patch the store, then patch the local list the same way instead
        of re-reading it. A failed patch leaves the list alone and sets the error. */
    method HandleStatusUpdate(store: RequestStore<ServiceDetails>, id: nat, status: string)
      requires store.Valid()
      modifies this`serviceRequests, this`error, store`records
      ensures store.Valid()
      ensures old(store.available) && HasId(old(store.records), id) ==>
                && serviceRequests == WithStatus(old(serviceRequests), id, status)
                && store.records == WithStatus(old(store.records), id, status)
                && error == old(error)
      ensures !(old(store.available) && HasId(old(store.records), id)) ==>
                serviceRequests == old(serviceRequests) && store.records == old(store.records)
                && error == "Failed to update status."
      ensures old(serviceRequests) == old(store.records) ==> serviceRequests == store.records
    {
      var r := store.UpdateStatus(id, status);
      if r.Done? {
        serviceRequests := WithStatus(serviceRequests, id, status);
      } else {
        error := "Failed to update status.";
      }
    }

    /** `handleSort`: a header click. */
    method HandleSort(key: SortKey)
      modifies this`sortConfig
      ensures sortConfig == NextSort(old(sortConfig), key)
    {
      sortConfig := SortConfig(key, if sortConfig.key == key && sortConfig.direction == Asc then Desc else Asc);
    }

    /** The rows of the table: `sortedRequests`. */
    function Shown(): seq<ServiceRequest>
      reads this
    {
      Visible(serviceRequests, filterStatus, filterType, sortConfig)
    }

    /** The content of the exported file, built from the rows as shown. */
    function ExportCsv(formatDate: int -> string): string
      reads this
    {
      Csv(Shown(), formatDate)
    }

    /** The Total, Pending and Resolved cards. */
    function Summary(): (r: (nat, nat, nat))
      reads this
      ensures r.0 == |serviceRequests| && r.1 + r.2 <= r.0
      ensures r.1 == CountStatus(serviceRequests, PENDING) && r.2 == CountStatus(serviceRequests, RESOLVED)
    {
      CountStatus2(serviceRequests, PENDING, RESOLVED);
      (|serviceRequests|, CountStatus(serviceRequests, PENDING), CountStatus(serviceRequests, RESOLVED))
    }
  }
}
