/**
 * streamlit_app.py: the single-file demo. Technicians and locations are
 * fixed tables, the job list and the briefing live in one browser session,
 * and nothing is persisted. Clock readings, report id suffixes, encoded
 * photos and the briefing text arrive as parameters.
 */
module Demo {
  import opened Wrappers
  import opened Records
  import opened Text
  import opened Lists
  import Store

  /** A roster entry of the demo: no email, fixed initials and colour. */
  datatype RosterTech = RosterTech(id: string, name: string, initials: string, color: string)

  const TECHS: seq<RosterTech> := [
    RosterTech("t1", "Alex Rivera", "AR", "#7f1d1d"),
    RosterTech("t2", "Sarah Chen", "SC", "#3f3f46"),
    RosterTech("t3", "Mike Johnson", "MJ", "#b91c1c"),
    RosterTech("t4", "Emily Davis", "ED", "#52525b"),
    RosterTech("t5", "David Kim", "DK", "#991b1b")
  ]

  const LOCATIONS: seq<Location> := [
    Location("l1", "HQ Main Office", "123 Enterprise Blvd, Tech City"),
    Location("l2", "Westside Warehouse", "4500 Industrial Pkwy, West End"),
    Location("l3", "Downtown Branch", "88 Market St, Downtown"),
    Location("l4", "North Medical Center", "500 Wellness Way, North Hills"),
    Location("l5", "Sunnydale Mall", "1200 Retail Row, Sunnydale")
  ]

  /** Reports filed on an unassigned job are credited to the first technician. */
  const DEFAULT_AUTHOR: string := "t1"

  const HVAC_TITLE: string := "HVAC Maintenance Unit 4"
  const HVAC_NOTE: string := "Routine maintenance check on rooftop unit. Replace filters."
  const COOLING_TITLE: string := "Server Room Cooling Failure"
  const COOLING_NOTE: string := "Critical high temp alarm in server room. Immediate dispatch."
  const ARRIVAL_NOTE: string := "Arrived on site. Temperature is 85F. Investigating compressor unit."
  const LIGHTING_TITLE: string := "Lobby Lighting Install"
  const LIGHTING_NOTE: string := "Install new LED fixtures in the main lobby entrance."

  /**
   * The three demo jobs every new session starts with. Each job's date is a
   * clock reading of its own (`date1`, `date2`, `date3`); `hourAgo` is a
   * fourth reading, less one hour, stamped on the second job's report.
   */
  function InitialJobs(date1: string, date2: string, date3: string, hourAgo: string): (jobs: seq<Job>)
    ensures |jobs| == 3
    ensures jobs[0].date == date1 && jobs[1].date == date2 && jobs[2].date == date3
    ensures forall i :: 0 <= i < 3 ==> jobs[i].status != Completed && jobs[i].techId.Some?
    ensures forall i :: 0 <= i < 3 ==> (jobs[i].reports == [] <==> i != 1)
    ensures |jobs[1].reports| == 1 && jobs[1].reports[0].timestamp == hourAgo
    ensures Some(jobs[1].reports[0].techId) == jobs[1].techId
  {
    [ Job("j1", HVAC_TITLE, HVAC_NOTE,
          Service, Medium, Pending, "l2", Some("t1"), date1, []),
      Job("j2", COOLING_TITLE, COOLING_NOTE,
          Service, Critical, InProgress, "l1", Some("t2"), date2,
          [Report("r1", "t2", hourAgo, ARRIVAL_NOTE, [])]),
      Job("j3", LIGHTING_TITLE, LIGHTING_NOTE,
          Project, Low, Pending, "l3", Some("t3"), date3, []) ]
  }

  // ------------------------------------------------------------ lookups

  /** `get_tech`: the first roster entry with that id, or None. */
  function GetTech(techId: Option<string>): (r: Option<RosterTech>)
    ensures r.Some? ==> r.value in TECHS && techId == Some(r.value.id)
    ensures r.None? <==> forall i :: 0 <= i < |TECHS| ==> techId != Some(TECHS[i].id)
  {
    match FindFirst(TECHS, (t: RosterTech) => Some(t.id) == techId)
    case Some(i) => Some(TECHS[i])
    case None => None
  }

  /** `get_location`: the first location with that id, or None. */
  function GetLocation(locId: string): (r: Option<Location>)
    ensures r.Some? ==> r.value in LOCATIONS && r.value.id == locId
    ensures r.None? <==> forall i :: 0 <= i < |LOCATIONS| ==> LOCATIONS[i].id != locId
  {
    Store.GetLocation(LOCATIONS, locId)
  }

  /** The roster ids are pairwise distinct. */
  lemma TechIdsDistinct()
    ensures forall n, m :: 0 <= n < m < |TECHS| ==> TECHS[n].id != TECHS[m].id
  {
    forall n, m | 0 <= n < m < |TECHS| ensures TECHS[n].id != TECHS[m].id {
      assert TECHS[n].id[1] != TECHS[m].id[1];
    }
  }

  /** The location ids are pairwise distinct. */
  lemma LocationIdsDistinct()
    ensures forall n, m :: 0 <= n < m < |LOCATIONS| ==> LOCATIONS[n].id != LOCATIONS[m].id
  {
    forall n, m | 0 <= n < m < |LOCATIONS| ensures LOCATIONS[n].id != LOCATIONS[m].id {
      assert LOCATIONS[n].id[1] != LOCATIONS[m].id[1];
    }
  }

  /** Every roster entry is found by its own id. */
  lemma TechFoundById(i: nat)
    requires i < |TECHS|
    ensures GetTech(Some(TECHS[i].id)) == Some(TECHS[i])
  {
    TechIdsDistinct();
    var r := GetTech(Some(TECHS[i].id));
    assert r.Some?;
  }

  /** Every table location is found by its own id. */
  lemma LocationFoundById(i: nat)
    requires i < |LOCATIONS|
    ensures GetLocation(LOCATIONS[i].id) == Some(LOCATIONS[i])
  {
    LocationIdsDistinct();
    var r := GetLocation(LOCATIONS[i].id);
    assert r.Some?;
  }

  /** The seed jobs refer only to technicians and locations of the tables. */
  lemma InitialJobsResolve(date1: string, date2: string, date3: string, hourAgo: string)
    ensures forall i :: 0 <= i < |InitialJobs(date1, date2, date3, hourAgo)| ==>
              GetTech(InitialJobs(date1, date2, date3, hourAgo)[i].techId).Some? &&
              GetLocation(InitialJobs(date1, date2, date3, hourAgo)[i].locationId).Some?
  {
    var jobs := InitialJobs(date1, date2, date3, hourAgo);
    var techAt, locAt := [0, 1, 2], [1, 0, 2];
    assert forall i :: 0 <= i < 3 ==> jobs[i].techId == Some(TECHS[techAt[i]].id) && jobs[i].locationId == LOCATIONS[locAt[i]].id;
    forall i | 0 <= i < 3 ensures GetTech(jobs[i].techId).Some? && GetLocation(jobs[i].locationId).Some? {
      TechFoundById(techAt[i]);
      LocationFoundById(locAt[i]);
    }
  }

  /** Every job id is "j" followed by its serial. */
  ghost predicate NumberedBy(jobs: seq<Job>, serials: seq<nat>) {
    |serials| == |jobs| && forall i :: 0 <= i < |jobs| ==> jobs[i].id == "j" + NatToString(serials[i])
  }

  /** The seed ids are "j1", "j2" and "j3". */
  lemma InitialJobsNumbered(date1: string, date2: string, date3: string, hourAgo: string)
    ensures WellNumbered(InitialJobs(date1, date2, date3, hourAgo), [1, 2, 3])
  {
    var jobs := InitialJobs(date1, date2, date3, hourAgo);
    var serials: seq<nat> := [1, 2, 3];
    forall i | 0 <= i < 3 ensures jobs[i].id == "j" + NatToString(serials[i]) {
      assert NatToString(serials[i]) == [DigitChar(serials[i])];
    }
  }

  /** The session invariant: ids numbered by distinct serials below the job count plus 100. */
  ghost predicate WellNumbered(jobs: seq<Job>, serials: seq<nat>) {
    NumberedBy(jobs, serials) && FreshSerials(serials)
  }

  /** A job numbered `n`, put in front, is numbered along with the rest. */
  lemma PrependNumbered(jobs: seq<Job>, serials: seq<nat>, job: Job, n: nat)
    requires NumberedBy(jobs, serials)
    requires job.id == "j" + NatToString(n)
    ensures NumberedBy([job] + jobs, [n] + serials)
  {
    var s', j' := [n] + serials, [job] + jobs;
    forall i | 0 <= i < |j'| ensures j'[i].id == "j" + NatToString(s'[i]) {
      if i > 0 { assert j'[i] == jobs[i - 1] && s'[i] == serials[i - 1]; }
    }
  }

  /** Serials below `|serials| + 100`, all distinct: the next serial is new and the bound moves up with it. */
  ghost predicate FreshSerials(serials: seq<nat>) {
    && (forall i :: 0 <= i < |serials| ==> serials[i] < |serials| + 100)
    && (forall i, k :: 0 <= i < k < |serials| ==> serials[i] != serials[k])
  }

  lemma PrependFresh(serials: seq<nat>)
    requires FreshSerials(serials)
    ensures FreshSerials([|serials| + 100] + serials)
  {
    var s' := [|serials| + 100] + serials;
    forall i | 0 <= i < |s'| ensures s'[i] < |s'| + 100 {
      if i > 0 { assert s'[i] == serials[i - 1]; }
    }
    forall i, k | 0 <= i < k < |s'| ensures s'[i] != s'[k] {
      assert s'[k] == serials[k - 1];
      if i > 0 { assert s'[i] == serials[i - 1]; }
    }
  }

  /** A job numbered by the count plus 100, put in front, keeps the invariant. */
  lemma PrependKeepsNumbering(jobs: seq<Job>, serials: seq<nat>, job: Job)
    requires WellNumbered(jobs, serials)
    requires job.id == "j" + NatToString(|jobs| + 100)
    ensures WellNumbered([job] + jobs, [|jobs| + 100] + serials)
  {
    PrependNumbered(jobs, serials, job, |jobs| + 100);
    PrependFresh(serials);
  }

  /** Replacing one job by a job with the same id keeps the numbering. */
  lemma EditKeepsNumbering(jobs: seq<Job>, serials: seq<nat>, k: nat, job: Job)
    requires NumberedBy(jobs, serials)
    requires k < |jobs| && job.id == jobs[k].id
    ensures NumberedBy(jobs[k := job], serials)
    ensures WellNumbered(jobs, serials) ==> WellNumbered(jobs[k := job], serials)
  {
  }

  /** `tech_map[choice]`: None for "Unassigned", otherwise the id of the roster entry with that name. */
  function TechIdByChoice(roster: seq<RosterTech>, choice: string): (id: Option<string>)
    ensures choice == Store.UNASSIGNED ==> id.None?
    ensures id.Some? ==> exists i :: 0 <= i < |roster| && roster[i].name == choice && roster[i].id == id.value
    ensures choice != Store.UNASSIGNED && (exists i :: 0 <= i < |roster| && roster[i].name == choice) ==> id.Some?
  {
    if choice == Store.UNASSIGNED then None
    else match FindLast(roster, (t: RosterTech) => t.name == choice)
      case Some(i) => Some(roster[i].id)
      case None => None
  }

  // ------------------------------------------------------- the chat context

  /** A job without its `reports` key: what the assistant is shown. */
  datatype JobFields = JobFields(
    id: string, title: string, description: string, jobType: JobType, priority: Priority,
    status: Status, locationId: string, techId: Option<string>, date: string)

  function StripReports(j: Job): (f: JobFields)
    ensures WithReports(f, j.reports) == j
  {
    JobFields(j.id, j.title, j.description, j.jobType, j.priority, j.status, j.locationId, j.techId, j.date)
  }

  function WithReports(f: JobFields, reports: seq<Report>): Job {
    Job(f.id, f.title, f.description, f.jobType, f.priority, f.status, f.locationId, f.techId, f.date, reports)
  }

  /** `simple_jobs`: every job, in order, with every key except `reports`. */
  function ChatJobs(jobs: seq<Job>): (simple: seq<JobFields>)
    ensures |simple| == |jobs|
    ensures forall i :: 0 <= i < |jobs| ==> WithReports(simple[i], jobs[i].reports) == jobs[i]
  {
    if jobs == [] then [] else [StripReports(jobs[0])] + ChatJobs(jobs[1..])
  }

  /** The context loses nothing but the reports: two jobs with the same reports are shown alike only if they are equal. */
  lemma ChatJobsLoseOnlyReports(jobs: seq<Job>, others: seq<Job>)
    requires |jobs| == |others|
    requires forall i :: 0 <= i < |jobs| ==> jobs[i].reports == others[i].reports
    ensures ChatJobs(jobs) == ChatJobs(others) <==> jobs == others
  {
    if ChatJobs(jobs) == ChatJobs(others) {
      forall i | 0 <= i < |jobs| ensures jobs[i] == others[i] {
        assert ChatJobs(jobs)[i] == ChatJobs(others)[i];
      }
    }
  }

  // ------------------------------------------------------------ the session

  /**
   * One browser session. `hasJobs`/`hasBriefing` say whether the key is in
   * the session state yet. The ghost `serials` holds the number inside each
   * job id ("j" followed by it): seed ids use 1 to 3, created ones the list
   * length plus 100, so every serial stays below that and ids never repeat.
   */
  class Session {
    /** The fixed tables the session's forms offer: TECHS and LOCATIONS. */
    const roster: seq<RosterTech>
    const locations: seq<Location>
    var hasJobs: bool
    var jobs: seq<Job>
    var hasBriefing: bool
    var briefing: Option<string>
    ghost var serials: seq<nat>

    ghost predicate Valid()
      reads this
    {
      WellNumbered(jobs, serials)
    }

    /** No two jobs of a valid session share an id, so a lookup by id finds the one job meant. */
    lemma IdsUnique()
      requires Valid()
      ensures forall i, k :: 0 <= i < k < |jobs| ==> jobs[i].id != jobs[k].id
    {
      forall i, k | 0 <= i < k < |jobs| ensures jobs[i].id != jobs[k].id {
        if jobs[i].id == jobs[k].id {
          assert ("j" + NatToString(serials[i]))[1..] == NatToString(serials[i]);
          assert ("j" + NatToString(serials[k]))[1..] == NatToString(serials[k]);
          NatToStringInjective(serials[i], serials[k]);
        }
      }
    }

    /** A fresh session: no keys yet. */
    constructor ()
      ensures Valid() && !hasJobs && !hasBriefing && jobs == [] && briefing == None
      ensures roster == TECHS && locations == LOCATIONS
    {
      roster := TECHS;
      locations := LOCATIONS;
      hasJobs := false;
      jobs := [];
      hasBriefing := false;
      briefing := None;
      serials := [];
    }

    /** Session seeding: each key gets its initial value only if it is absent; present values are kept. */
    method Seed(date1: string, date2: string, date3: string, hourAgo: string)
      requires Valid()
      modifies this
      ensures Valid() && hasJobs && hasBriefing
      ensures old(hasJobs) ==> jobs == old(jobs)
      ensures !old(hasJobs) ==> jobs == InitialJobs(date1, date2, date3, hourAgo)
      ensures old(hasBriefing) ==> briefing == old(briefing)
      ensures !old(hasBriefing) ==> briefing == None
    {
      if !hasJobs {
        hasJobs := true;
        jobs := InitialJobs(date1, date2, date3, hourAgo);
        serials := [1, 2, 3];
        InitialJobsNumbered(date1, date2, date3, hourAgo);
      }
      if !hasBriefing {
        hasBriefing := true;
        briefing := None;
      }
    }

    /**
     * `add_job_modal` on "Save Job": no title check; the new Pending job with
     * no reports goes to the front with id "j" and the list length plus 100.
     * The briefing is left as it is.
     */
    method CreateJob(title: string, description: string, jobType: JobType, priority: Priority,
                     locationName: string, techChoice: string, now: string)
      requires Valid() && hasJobs
      requires Store.LocationIdByName(locations, locationName).Some?
      modifies this
      ensures Valid()
      ensures hasJobs == old(hasJobs) && hasBriefing == old(hasBriefing) && briefing == old(briefing)
      ensures jobs == [Job("j" + NatToString(|old(jobs)| + 100), title, description, jobType, priority, Pending,
                           Store.LocationIdByName(locations, locationName).value, TechIdByChoice(roster, techChoice),
                           now, [])] + old(jobs)
    {
      var n := |jobs| + 100;
      var job := Job("j" + NatToString(n), title, description, jobType, priority, Pending,
                     Store.LocationIdByName(locations, locationName).value, TechIdByChoice(roster, techChoice), now, []);
      PrependKeepsNumbering(jobs, serials, job);
      jobs := [job] + jobs;
      serials := [n] + serials;
    }

    /** The status selector: a different status is written to the first job with that id, and to nothing else. */
    method SetStatus(jobId: string, newStatus: Status) returns (changed: bool)
      requires Valid() && hasJobs
      modifies this
      ensures Valid()
      ensures hasJobs == old(hasJobs) && hasBriefing == old(hasBriefing) && briefing == old(briefing)
      ensures var k := Store.FindJob(old(jobs), jobId);
              changed <==> k.Some? && old(jobs)[k.value].status != newStatus
      ensures changed ==>
                var k := Store.FindJob(old(jobs), jobId).value;
                jobs == old(jobs)[k := old(jobs)[k].(status := newStatus)]
      ensures !changed ==> jobs == old(jobs)
    {
      changed := false;
      var k := Store.FindJob(jobs, jobId);
      if k.None? {
        return;
      }
      var i := k.value;
      if newStatus != jobs[i].status {
        EditKeepsNumbering(jobs, serials, i, jobs[i].(status := newStatus));
        jobs := jobs[i := jobs[i].(status := newStatus)];
        changed := true;
      }
    }

    /**
     * "Submit Report": with non-empty content, a report credited to the
     * job's technician (the default author when unassigned) is appended to
     * that job's history. As in `Store.JobStore.SubmitReport`, a photo that
     * fails to encode (`encoded` false) aborts the handler before the append.
     */
    method SubmitReport(jobId: string, content: string, camera: Option<Photo>, uploads: seq<Photo>,
                        encoded: bool, idSuffix: string, now: string)
      returns (filed: bool)
      requires Valid() && hasJobs
      modifies this
      ensures Valid()
      ensures hasJobs == old(hasJobs) && hasBriefing == old(hasBriefing) && briefing == old(briefing)
      ensures filed <==> Store.FindJob(old(jobs), jobId).Some? && content != "" && encoded
      ensures filed ==>
                var k := Store.FindJob(old(jobs), jobId).value;
                var job := old(jobs)[k];
                var photos := (if camera.Some? then [camera.value] else []) + uploads;
                jobs == old(jobs)[k := job.(reports := job.reports +
                          [Report("r" + idSuffix, AuthorOr(job.techId, DEFAULT_AUTHOR), now, content, photos)])]
      ensures !filed ==> jobs == old(jobs)
    {
      var k := Store.FindJob(jobs, jobId);
      filed := k.Some? && content != "" && encoded;
      if filed {
        var i := k.value;
        var photos := Store.CollectPhotos(camera, uploads);
        var report := Report("r" + idSuffix, AuthorOr(jobs[i].techId, DEFAULT_AUTHOR), now, content, photos);
        EditKeepsNumbering(jobs, serials, i, jobs[i].(reports := jobs[i].reports + [report]));
        jobs := jobs[i := jobs[i].(reports := jobs[i].reports + [report])];
      }
    }

    /** "Generate Briefing": offered, and stored, only while the briefing is falsy. */
    method GenerateBriefing(generated: string) returns (stored: bool)
      requires hasBriefing
      modifies this
      ensures hasJobs == old(hasJobs) && jobs == old(jobs) && serials == old(serials) && hasBriefing == old(hasBriefing)
      ensures stored <==> Falsy(old(briefing))
      ensures stored ==> briefing == Some(generated)
      ensures !stored ==> briefing == old(briefing)
    {
      stored := Falsy(briefing);
      if stored {
        briefing := Some(generated);
      }
    }

    /** "Refresh": offered only beside a shown (truthy) briefing; clears it to None. */
    method RefreshBriefing() returns (cleared: bool)
      requires hasBriefing
      modifies this
      ensures hasJobs == old(hasJobs) && jobs == old(jobs) && serials == old(serials) && hasBriefing == old(hasBriefing)
      ensures cleared <==> !Falsy(old(briefing))
      ensures briefing.None? || briefing == old(briefing)
      ensures Falsy(briefing)
      ensures cleared ==> briefing == None
      ensures !cleared ==> briefing == old(briefing)
    {
      cleared := !Falsy(briefing);
      if cleared {
        briefing := None;
      }
    }
  }
}
