/**
 * The records both dashboards keep in memory: jobs with their report history,
 * locations and technicians. A photo is an opaque string (the source stores a
 * base64 data URL); identifiers, timestamps and dates are strings.
 */
module Records {
  import opened Wrappers

  datatype Status = Pending | InProgress | Completed
  datatype JobType = Service | Project
  datatype Priority = Low | Medium | High | Critical

  type Photo = string

  /** One entry of a job's history; `photos` keep the order in which they were attached. */
  datatype Report = Report(
    id: string,
    techId: string,
    timestamp: string,
    content: string,
    photos: seq<Photo>)

  /** A job; `techId` is None when the job is unassigned. */
  datatype Job = Job(
    id: string,
    title: string,
    description: string,
    jobType: JobType,
    priority: Priority,
    status: Status,
    locationId: string,
    techId: Option<string>,
    date: string,
    reports: seq<Report>)

  datatype Location = Location(id: string, name: string, address: string)

  /** A technician of the persisted roster. */
  datatype Tech = Tech(id: string, name: string, email: string, initials: string, color: string)

  function PriorityName(p: Priority): string {
    match p
    case Low => "Low"
    case Medium => "Medium"
    case High => "High"
    case Critical => "Critical"
  }

  /** Python truthiness of an optional string: None and "" are falsy. */
  predicate Falsy(id: Option<string>) {
    id.None? || id.value == ""
  }

  /** `job['techId'] or fallback`: the author recorded on a new report. */
  function AuthorOr(techId: Option<string>, fallback: string): (author: string)
    ensures Falsy(techId) ==> author == fallback
    ensures !Falsy(techId) ==> Some(author) == techId
  {
    if Falsy(techId) then fallback else techId.value
  }

  predicate IsCompleted(j: Job) {
    j.status == Completed
  }
}
