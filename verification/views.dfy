/**
 * The job lists that `main()` of both dashboards builds before rendering:
 * the search filter, the tab lists (Service Calls, Projects, Archive), the
 * Tech Board columns, the Priority Feed and the two headline counts.
 * Both files use the same comprehensions.
 */
module Views {
  import opened Wrappers
  import opened Records
  import opened Text
  import opened Lists

  predicate IsActive(j: Job) {
    !IsCompleted(j)
  }

  // ---------------------------------------------------------------- search

  /** `search.lower() in title.lower() or search.lower() in description.lower()` */
  predicate MatchesQuery(query: string, j: Job) {
    Contains(Lower(query), Lower(j.title)) || Contains(Lower(query), Lower(j.description))
  }

  /** The list `main()` renders from: every job when the search box is empty, otherwise the matching jobs. */
  function SearchJobs(jobs: seq<Job>, query: string): (r: seq<Job>)
    ensures query == "" ==> r == jobs
    ensures forall i :: 0 <= i < |r| ==> r[i] in jobs && MatchesQuery(query, r[i])
    ensures forall i :: 0 <= i < |jobs| && MatchesQuery(query, jobs[i]) ==> jobs[i] in r
  {
    if query == "" then jobs else Filter(jobs, (j: Job) => MatchesQuery(query, j))
  }

  /** The `if search:` guard changes nothing: an empty query matches every job anyway. */
  lemma SearchIsFilter(jobs: seq<Job>, query: string)
    ensures SearchJobs(jobs, query) == Filter(jobs, (j: Job) => MatchesQuery(query, j))
  {
    if query == "" {
      forall i | 0 <= i < |jobs| ensures MatchesQuery(query, jobs[i]) {
        ContainsEmpty(Lower(jobs[i].title));
      }
      FilterKeepsAll(jobs, j => MatchesQuery(query, j));
    }
  }

  /** A job is kept exactly when it matches the query. */
  lemma SearchMembership(jobs: seq<Job>, query: string, j: Job)
    ensures j in SearchJobs(jobs, query) <==> j in jobs && MatchesQuery(query, j)
  {
    var r := SearchJobs(jobs, query);
    if j in r {
      var i :| 0 <= i < |r| && r[i] == j;
    }
    if j in jobs && MatchesQuery(query, j) {
      var i :| 0 <= i < |jobs| && jobs[i] == j;
    }
  }

  /** A job is kept exactly when the lower-cased query occurs in its lower-cased title or description. */
  lemma SearchSelects(jobs: seq<Job>, query: string, j: Job)
    ensures j in SearchJobs(jobs, query) <==>
            j in jobs && (Occurs(Lower(query), Lower(j.title)) || Occurs(Lower(query), Lower(j.description)))
  {
    SearchMembership(jobs, query, j);
    var q, t, d := Lower(query), Lower(j.title), Lower(j.description);
    ContainsIff(q, t);
    ContainsIff(q, d);
    assert MatchesQuery(query, j) <==> Contains(q, t) || Contains(q, d);
  }

  /** Queries that differ only in letter case select the same jobs. */
  lemma SearchIgnoresQueryCase(jobs: seq<Job>, q1: string, q2: string)
    requires Lower(q1) == Lower(q2)
    ensures SearchJobs(jobs, q1) == SearchJobs(jobs, q2)
  {
    SearchIsFilter(jobs, q1);
    SearchIsFilter(jobs, q2);
    FilterSameOn(jobs, (j: Job) => MatchesQuery(q1, j), (j: Job) => MatchesQuery(q2, j));
  }

  // ------------------------------------------------------------ the tabs

  /** Archive tab: the completed jobs. */
  function Archive(jobs: seq<Job>): (r: seq<Job>)
    ensures forall i :: 0 <= i < |r| ==> r[i] in jobs && r[i].status == Completed
    ensures forall i :: 0 <= i < |jobs| && jobs[i].status == Completed ==> jobs[i] in r
  {
    Filter(jobs, IsCompleted)
  }

  /** The jobs counted by the "Active Jobs" metric: every job not completed. */
  function ActiveJobs(jobs: seq<Job>): (r: seq<Job>)
    ensures forall i :: 0 <= i < |r| ==> r[i] in jobs && r[i].status != Completed
    ensures forall i :: 0 <= i < |jobs| && jobs[i].status != Completed ==> jobs[i] in r
  {
    Filter(jobs, IsActive)
  }

  predicate IsOpenService(j: Job) { j.jobType == Service && IsActive(j) }
  predicate IsOpenProject(j: Job) { j.jobType == Project && IsActive(j) }

  /** Service Calls tab: open jobs of type Service. */
  function ServiceCalls(jobs: seq<Job>): (r: seq<Job>)
    ensures forall i :: 0 <= i < |r| ==> r[i] in jobs && r[i].jobType == Service && r[i].status != Completed
    ensures forall i :: 0 <= i < |jobs| && IsOpenService(jobs[i]) ==> jobs[i] in r
  {
    Filter(jobs, IsOpenService)
  }

  /** Projects tab: open jobs of type Project. */
  function Projects(jobs: seq<Job>): (r: seq<Job>)
    ensures forall i :: 0 <= i < |r| ==> r[i] in jobs && r[i].jobType == Project && r[i].status != Completed
    ensures forall i :: 0 <= i < |jobs| && IsOpenProject(jobs[i]) ==> jobs[i] in r
  {
    Filter(jobs, IsOpenProject)
  }

  /** Tech Board column of the technician with id `techId`: that technician's open jobs. */
  function TechColumn(jobs: seq<Job>, techId: string): (r: seq<Job>)
    ensures forall i :: 0 <= i < |r| ==> r[i] in jobs && r[i].techId == Some(techId) && r[i].status != Completed
    ensures forall i :: 0 <= i < |jobs| && jobs[i].techId == Some(techId) && IsActive(jobs[i]) ==> jobs[i] in r
  {
    Filter(jobs, (j: Job) => j.techId == Some(techId) && IsActive(j))
  }

  predicate IsOpenUnassigned(j: Job) { Falsy(j.techId) && IsActive(j) }

  /** Tech Board "Unassigned" column: open jobs whose `techId` is falsy. */
  function Unassigned(jobs: seq<Job>): (r: seq<Job>)
    ensures forall i :: 0 <= i < |r| ==> r[i] in jobs && Falsy(r[i].techId) && r[i].status != Completed
    ensures forall i :: 0 <= i < |jobs| && IsOpenUnassigned(jobs[i]) ==> jobs[i] in r
  {
    Filter(jobs, IsOpenUnassigned)
  }

  predicate IsUrgentOpen(j: Job) {
    (j.priority == Critical || j.priority == High) && IsActive(j)
  }

  /** Priority Feed: open jobs of priority Critical or High. */
  function PriorityFeed(jobs: seq<Job>): (r: seq<Job>)
    ensures forall i :: 0 <= i < |r| ==> r[i] in jobs && r[i].priority in {Critical, High} && r[i].status != Completed
    ensures forall i :: 0 <= i < |jobs| && IsUrgentOpen(jobs[i]) ==> jobs[i] in r
  {
    Filter(jobs, IsUrgentOpen)
  }

  predicate IsCritical(j: Job) { j.priority == Critical }

  /** The "Critical" metric: every job of priority Critical, completed or not. */
  function CriticalCount(jobs: seq<Job>): (n: nat)
    ensures n <= |jobs|
    ensures n == 0 <==> forall i :: 0 <= i < |jobs| ==> jobs[i].priority != Critical
    ensures n + |Filter(jobs, (j: Job) => !IsCritical(j))| == |jobs|
  {
    var r := Filter(jobs, IsCritical);
    assert r != [] ==> r[0] in jobs;
    FilterPartition(jobs, IsCritical, (j: Job) => !IsCritical(j));
    |r|
  }

  /**
   * The count, one job at a time: none for no jobs, and one more exactly when
   * the added job is Critical. These two equations fix the count of every list.
   */
  lemma CriticalCountStep(j: Job, jobs: seq<Job>)
    ensures CriticalCount([]) == 0
    ensures CriticalCount([j] + jobs) == CriticalCount(jobs) + (if j.priority == Critical then 1 else 0)
  {
    FilterConcat([j], jobs, IsCritical);
  }

  // ------------------------------------------------------- partitions

  /** Archive and the active list split the jobs: each job is in exactly one of them. */
  lemma ArchiveActivePartition(jobs: seq<Job>)
    ensures multiset(Archive(jobs)) + multiset(ActiveJobs(jobs)) == multiset(jobs)
    ensures |Archive(jobs)| + |ActiveJobs(jobs)| == |jobs|
  {
    FilterPartition(jobs, IsCompleted, IsActive);
  }

  /** Service Calls and Projects together are exactly the open jobs. */
  lemma ServiceProjectPartition(jobs: seq<Job>)
    ensures multiset(ServiceCalls(jobs)) + multiset(Projects(jobs)) == multiset(ActiveJobs(jobs))
    ensures |ServiceCalls(jobs)| + |Projects(jobs)| == |ActiveJobs(jobs)|
  {
    FilterSplit(jobs, IsActive, IsOpenService, IsOpenProject);
  }

  /**
   * A job whose `techId` names no technician of the board is shown in no
   * Tech Board column: neither under a technician nor under "Unassigned".
   */
  lemma DanglingTechHidden(jobs: seq<Job>, boardTechIds: seq<string>, j: Job)
    requires j.techId.Some? && j.techId.value != "" && j.techId.value !in boardTechIds
    ensures forall k :: 0 <= k < |boardTechIds| ==> j !in TechColumn(jobs, boardTechIds[k])
    ensures j !in Unassigned(jobs)
  {
  }

  /** An open job with a falsy `techId` is in the Unassigned column and in no technician's column with a non-empty id. */
  lemma UnassignedColumnExclusive(jobs: seq<Job>, i: nat, techId: string)
    requires i < |jobs| && Falsy(jobs[i].techId) && IsActive(jobs[i]) && techId != ""
    ensures jobs[i] in Unassigned(jobs)
    ensures jobs[i] !in TechColumn(jobs, techId)
  {
  }
}
