/** The HR dashboard (`HRDashboard.jsx`): the overview figures and the add-employee form. */
module HRDashboard {
  import opened Wrappers
  import opened Counting
  import opened Records
  import opened Store
  import opened EmployeesApi

  /** The choices of the form's Status menu. */
  const STATUS_OPTIONS := ["Probationary", "Active", "On Leave", "Suspended", "Resigned", "Terminated", "Retired"]

  /** The choices of the form's Employment Type menu. */
  const EMPLOYMENT_TYPE_OPTIONS := ["Full-Time", "Part-Time", "Contractor", "Intern"]

  const ACTIVE := "Active"

  const ADD_FAILED := "Failed to add employee. Please try again."

  datatype HRStats = HRStats(totalEmployees: nat, activeEmployees: nat, pendingLeaveRequests: nat,
                             pendingServiceRequests: nat, needsAttention: nat)

  const ZERO_STATS := HRStats(0, 0, 0, 0, 0)

  /** `!emp.status || emp.status === ''`: no status at all, or an empty one. */
  predicate NeedsAttention(e: Employee) {
    e.info.status.None? || e.info.status == Some("")
  }

  predicate IsActive(e: Employee) {
    e.info.status == Some(ACTIVE)
  }

  /** The figures `fetchStats` computes from the three collections. */
  function ComputeStats(employees: seq<Employee>, leaves: seq<LeaveRequest>, services: seq<ServiceRequest>): (s: HRStats)
    ensures s.totalEmployees == |employees|
    ensures s.activeEmployees == Count(employees, IsActive)
    ensures s.needsAttention == Count(employees, NeedsAttention)
    ensures s.activeEmployees + s.needsAttention <= s.totalEmployees
    ensures s.pendingLeaveRequests == CountStatus(leaves, PENDING) <= |leaves|
    ensures s.pendingServiceRequests == CountStatus(services, PENDING) <= |services|
  {
    CountExclusive2(employees, IsActive, NeedsAttention);
    HRStats(|employees|, Count(employees, IsActive), CountStatus(leaves, PENDING),
            CountStatus(services, PENDING), Count(employees, NeedsAttention))
  }

  /** The Needs Attention card appears only when its figure is positive. */
  predicate ShowsAttentionCard(s: HRStats) {
    s.needsAttention > 0
  }

  /** The card is shown exactly when some employee has no status, and the active figure is
      zero exactly when nobody is `Active`. */
  lemma AttentionCardSpec(employees: seq<Employee>, leaves: seq<LeaveRequest>, services: seq<ServiceRequest>)
    ensures ShowsAttentionCard(ComputeStats(employees, leaves, services)) <==>
              exists i :: 0 <= i < |employees| && NeedsAttention(employees[i])
    ensures ComputeStats(employees, leaves, services).activeEmployees == 0 <==>
              forall i :: 0 <= i < |employees| ==> !IsActive(employees[i])
  {
    CountZeroIff(employees, NeedsAttention);
    CountZeroIff(employees, IsActive);
  }

  /** The form's initial and reset value. */
  const DEFAULT_FORM := EmployeeData("", "", "", "", "", "", Some("Probationary"), Some("Full-Time"))

  /** The form's status is one of the menu's choices. */
  predicate StatusFromMenu(form: EmployeeData) {
    form.status.Some? && form.status.value in STATUS_OPTIONS
  }

  /** No menu choice is empty, so an employee the form creates never needs attention, while
      one created from the sign-up form, which sends no status, always does. */
  lemma CreatedStatusSpec(id: nat, form: EmployeeData)
    ensures StatusFromMenu(DEFAULT_FORM)
    ensures StatusFromMenu(form) ==> !NeedsAttention(Employee(id, form))
    ensures form.status.None? ==> NeedsAttention(Employee(id, form))
  {
  }

  /** The form's inputs, named as in the markup. */
  datatype Field = Name | Email | Phone | Department | Title | StartDate | Status | EmploymentType

  /** `{ ...prev, [name]: value }`. */
  function SetField(form: EmployeeData, field: Field, value: string): EmployeeData {
    match field
    case Name => form.(name := value)
    case Email => form.(email := value)
    case Phone => form.(phone := value)
    case Department => form.(department := value)
    case Title => form.(title := value)
    case StartDate => form.(startDate := value)
    case Status => form.(status := Some(value))
    case EmploymentType => form.(employmentType := Some(value))
  }

  class HRDashboardScreen {
    var showModal: bool
    var isLoading: bool
    var error: string
    var stats: HRStats
    var statsLoading: bool
    var formData: EmployeeData

    constructor ()
      ensures !showModal && !isLoading && error == "" && stats == ZERO_STATS && statsLoading
      ensures formData == DEFAULT_FORM && StatusFromMenu(formData)
    {
      showModal := false;
      isLoading := false;
      error := "";
      stats := ZERO_STATS;
      statsLoading := true;
      formData := DEFAULT_FORM;
    }

    /** `fetchStats`: the figures are replaced only when all three reads succeed. */
    method FetchStats(employees: EmployeeStore, leaves: RequestStore<LeaveDetails>, services: RequestStore<ServiceDetails>)
      modifies this`stats, this`statsLoading
      ensures !statsLoading
      ensures employees.available && leaves.available && services.available ==>
                stats == ComputeStats(employees.records, leaves.records, services.records)
      ensures !(employees.available && leaves.available && services.available) ==> stats == old(stats)
    {
      var es := employees.All();
      var ls := leaves.All();
      var ss := services.All();
      if es.Done? && ls.Done? && ss.Done? {
        stats := ComputeStats(es.value, ls.value, ss.value);
      }
      statsLoading := false;
    }

    /** `handleInputChange`. The two menus only offer their own choices; the text inputs
        take anything. Whatever is typed, the status stays a menu choice. */
    method HandleInputChange(field: Field, value: string)
      requires field == Status ==> value in STATUS_OPTIONS
      requires field == EmploymentType ==> value in EMPLOYMENT_TYPE_OPTIONS
      modifies this`formData
      ensures formData == SetField(old(formData), field, value)
      ensures StatusFromMenu(old(formData)) ==> StatusFromMenu(formData)
    {
      formData := SetField(formData, field, value);
    }

    method OpenModal()
      modifies this`showModal
      ensures showModal
    {
      showModal := true;
    }

    /** Closing the dialog without saving keeps what was typed. */
    method CloseModal()
      modifies this`showModal
      ensures !showModal
    {
      showModal := false;
    }

    /** The success path of `handleSubmit`: close the dialog, reset the form to its
        defaults and refresh the figures. */
    method Added(employees: EmployeeStore, leaves: RequestStore<LeaveDetails>, services: RequestStore<ServiceDetails>)
      modifies this`showModal, this`formData, this`stats, this`statsLoading
      ensures !showModal && formData == DEFAULT_FORM && !statsLoading
      ensures employees.available && leaves.available && services.available ==>
                stats == ComputeStats(employees.records, leaves.records, services.records)
      ensures !(employees.available && leaves.available && services.available) ==> stats == old(stats)
    {
      showModal := false;
      formData := DEFAULT_FORM;
      FetchStats(employees, leaves, services);
    }

    /** `handleSubmit`: post the form as it is. On success close the dialog, reset the form to
        its defaults and refresh the figures; on failure keep both and set the message. */
    method HandleSubmit(employees: EmployeeStore, leaves: RequestStore<LeaveDetails>, services: RequestStore<ServiceDetails>)
      requires employees.Valid()
      modifies this`showModal, this`isLoading, this`error, this`formData, this`stats, this`statsLoading
      modifies employees`records, employees`nextId
      ensures employees.Valid() && !isLoading
      ensures old(employees.available) ==>
                && employees.records == old(employees.records) + [Employee(old(employees.nextId), old(formData))]
                && !showModal && formData == DEFAULT_FORM && error == "" && !statsLoading
                && (leaves.available && services.available ==>
                      stats == ComputeStats(employees.records, leaves.records, services.records))
                && (!(leaves.available && services.available) ==> stats == old(stats))
                && (StatusFromMenu(old(formData)) ==> !NeedsAttention(employees.records[|employees.records| - 1]))
      ensures !old(employees.available) ==>
                && employees.records == old(employees.records) && employees.nextId == old(employees.nextId)
                && showModal == old(showModal) && formData == old(formData) && error == ADD_FAILED
                && stats == old(stats) && statsLoading == old(statsLoading)
    {
      isLoading := true;
      error := "";
      CreatedStatusSpec(employees.nextId, formData);
      var created := CreateEmployee(employees, formData);
      if created.Done? {
        Added(employees, leaves, services);
      } else {
        error := ADD_FAILED;
      }
      isLoading := false;
    }
  }
}
