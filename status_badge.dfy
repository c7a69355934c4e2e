/** The status pill (`StatusBadge.jsx`). */
module StatusBadge {
  import opened Records
  import opened Text

  /** The class of the pill: approved and denied have their own, anything else looks pending. */
  function BadgeClass(status: string): (c: string)
    ensures status == APPROVED ==> c == "badge badge-approved"
    ensures status == DENIED ==> c == "badge badge-denied"
    ensures status != APPROVED && status != DENIED ==> c == "badge badge-pending"
  {
    if status == APPROVED then "badge badge-approved"
    else if status == DENIED then "badge badge-denied"
    else "badge badge-pending"
  }

  /** The text of the pill: the status in capitals. */
  function Label(status: string): (l: string)
    ensures |l| == |status|
    ensures forall i :: 0 <= i < |status| ==> l[i] == UpperChar(status[i])
  {
    ToUpper(status)
  }

  /** The class depends only on whether the status is approved, denied or neither, which is
      why `in-progress` and `resolved` share the pending look; capitalising twice changes
      nothing more. */
  lemma BadgeSpec(status: string)
    ensures BadgeClass(status) in {"badge badge-approved", "badge badge-denied", "badge badge-pending"}
    ensures BadgeClass(IN_PROGRESS) == BadgeClass(RESOLVED) == BadgeClass(PENDING)
    ensures Label(Label(status)) == Label(status)
  {
    ToUpperIdempotent(status);
  }
}
