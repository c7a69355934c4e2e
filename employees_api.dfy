/** The employee API module (`employees.js`): reads and creates employees; it exports no
    update and no delete. */
module EmployeesApi {
  import opened Wrappers
  import opened Records
  import opened Store

  /** `list.length > 0 ? list[0] : null`. */
  function FirstOrNull(es: seq<Employee>): (r: Option<Employee>)
    ensures r.None? <==> |es| == 0
    ensures r.Some? ==> r.value == es[0]
  {
    if |es| > 0 then Some(es[0]) else None
  }

  /** `getEmployeeByEmail`: the first employee the store returns for the email, or null. */
  method GetEmployeeByEmail(store: EmployeeStore, email: string) returns (r: Fetch<Option<Employee>>)
    ensures r == if store.available then Done(FirstOrNull(SelectByEmail(store.records, email))) else Failed
  {
    var found := store.WithEmail(email);
    r := match found
      case Done(list) => Done(FirstOrNull(list))
      case Failed => Failed;
  }

  /** The position of the first employee with that email, if any. */
  function FirstWithEmail(es: seq<Employee>, email: string): (r: Option<nat>)
    ensures r.None? <==> forall i :: 0 <= i < |es| ==> es[i].info.email != email
    ensures r.Some? ==> r.value < |es| && es[r.value].info.email == email
                        && forall j :: 0 <= j < r.value ==> es[j].info.email != email
  {
    if |es| == 0 then None
    else if es[0].info.email == email then Some(0)
    else match FirstWithEmail(es[1..], email)
      case None => None
      case Some(k) => Some(k + 1)
  }

  /** The lookup finds nothing exactly when no employee has that email, and otherwise finds
      the first one in store order. */
  lemma {:induction false} LookupFindsFirst(es: seq<Employee>, email: string)
    ensures FirstOrNull(SelectByEmail(es, email)) ==
            match FirstWithEmail(es, email)
            case None => None
            case Some(k) => Some(es[k])
  {
    if |es| > 0 && es[0].info.email != email {
      LookupFindsFirst(es[1..], email);
    }
  }

  /** `createEmployee`: the caller's data is posted unchanged. */
  method CreateEmployee(store: EmployeeStore, data: EmployeeData) returns (r: Fetch<Employee>)
    requires store.Valid()
    modifies store`records, store`nextId
    ensures store.Valid()
    ensures old(store.available) ==> r == Done(Employee(old(store.nextId), data)) && store.records == old(store.records) + [r.value]
    ensures !old(store.available) ==> r.Failed? && store.records == old(store.records) && store.nextId == old(store.nextId)
  {
    r := store.Create(data);
  }
}
