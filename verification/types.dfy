/**
 * The records the portal passes around (lib/types.ts): users, crime reports with
 * their optional owner summary and admin responses. Optional properties of the
 * TypeScript interfaces (`email?`, `location?`, ...) and `null` values are `Option`s.
 */
module Types {

  datatype Option<+T> = None | Some(value: T)

  /** JavaScript truthiness of an optional string: present and non-empty. */
  predicate Truthy(o: Option<string>)
  {
    o.Some? && o.value != ""
  }

  /** The closed status enum of a crime report. */
  datatype Status = Pending | InProgress | Resolved

  /** The string a status is stored and compared as. */
  function StatusName(s: Status): string
  {
    match s
    case Pending => "pending"
    case InProgress => "in_progress"
    case Resolved => "resolved"
  }

  function ParseStatus(name: string): (r: Option<Status>)
    ensures r.Some? ==> StatusName(r.value) == name
  {
    if name == "pending" then Some(Pending)
    else if name == "in_progress" then Some(InProgress)
    else if name == "resolved" then Some(Resolved)
    else None
  }

  /** The stored names of the three statuses are distinct and are read back as themselves. */
  lemma StatusNameRoundTrip(s: Status)
    ensures ParseStatus(StatusName(s)) == Some(s)
  {
  }

  /** A user profile as the client sees it: no password material. */
  datatype User = User(
    id: string,
    name: string,
    cnic: string,
    phone: string,
    email: Option<string>,
    createdAt: string)

  /** The owner fields joined onto a report for the admin view. */
  datatype Owner = Owner(name: string, cnic: string, phone: string, email: Option<string>)

  datatype AdminResponse = AdminResponse(id: string, reportId: string, response: string, createdAt: string)

  datatype CrimeReport = CrimeReport(
    id: string,
    userId: string,
    crimeType: string,
    location: Option<string>,
    description: string,
    imageUrl: Option<string>,
    videoLink: Option<string>,
    isAnonymous: bool,
    status: Status,
    createdAt: string,
    updatedAt: string,
    user: Option<Owner>,
    adminResponses: Option<seq<AdminResponse>>)
}
