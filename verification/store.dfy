/**
 * The data effects of app.py's handlers on the shared, persisted state: the
 * job list, the technician roster, the locations and the cached briefing.
 * Form values arrive as parameters; so do the parts the model does not run:
 * clock readings and timestamp-based id suffixes, already-encoded photos,
 * the briefing text the LLM returns and whether SMTP delivery succeeds.
 */
module Store {
  import opened Wrappers
  import opened Records
  import opened Text
  import opened Lists
  import Views
  import Persistence
  import MailConfig

  const TECH_COLORS: seq<string> := ["#7f1d1d", "#3f3f46", "#b91c1c", "#52525b", "#991b1b", "#7c2d12", "#292524"]
  /** The technician choice that stands for "no technician". */
  const UNASSIGNED: string := "Unassigned"
  const MANUAL_NOTIFY: string := "SMTP not configured. Use the 'Email' button in Job Details to notify manually."
  const JOB_CREATED: string := "Job created successfully!"
  const UNKNOWN_AUTHOR: string := "unknown"

  // ------------------------------------------------------------ lookups

  /** `get_tech(tech_id)`: the first technician with that id, or None (always None for a None id). */
  function GetTech(techs: seq<Tech>, techId: Option<string>): (r: Option<Tech>)
    ensures r.Some? ==> r.value in techs && techId == Some(r.value.id)
    ensures r.None? <==> forall i :: 0 <= i < |techs| ==> techId != Some(techs[i].id)
    ensures r.Some? ==> exists i :: 0 <= i < |techs| && techs[i] == r.value &&
                          forall j :: 0 <= j < i ==> Some(techs[j].id) != techId
  {
    match FindFirst(techs, (t: Tech) => Some(t.id) == techId)
    case Some(i) => Some(techs[i])
    case None => None
  }

  /** `get_location(loc_id)`: the first location with that id, or None. */
  function GetLocation(locations: seq<Location>, locId: string): (r: Option<Location>)
    ensures r.Some? ==> r.value in locations && r.value.id == locId
    ensures r.None? <==> forall i :: 0 <= i < |locations| ==> locations[i].id != locId
    ensures r.Some? ==> exists i :: 0 <= i < |locations| && locations[i] == r.value &&
                          forall j :: 0 <= j < i ==> locations[j].id != locId
  {
    match FindFirst(locations, (l: Location) => l.id == locId)
    case Some(i) => Some(locations[i])
    case None => None
  }

  /** `job_index`, the position the details dialog edits: the first job with that id, or None for "Job not found". */
  function FindJob(jobs: seq<Job>, jobId: string): (k: Option<nat>)
    ensures k.Some? ==> k.value < |jobs| && jobs[k.value].id == jobId
    ensures k.Some? ==> forall j :: 0 <= j < k.value ==> jobs[j].id != jobId
    ensures k.None? <==> forall j :: 0 <= j < |jobs| ==> jobs[j].id != jobId
  {
    FindFirst(jobs, (j: Job) => j.id == jobId)
  }

  /** `{l['name']: l['id'] for l in locations}[name]`: the id of the LAST location with that name. */
  function LocationIdByName(locations: seq<Location>, name: string): (id: Option<string>)
    ensures id.Some? <==> exists i :: 0 <= i < |locations| && locations[i].name == name
    ensures id.Some? ==> exists i :: 0 <= i < |locations| && locations[i].name == name && locations[i].id == id.value
                           && forall j :: i < j < |locations| ==> locations[j].name != name
  {
    match FindLast(locations, (l: Location) => l.name == name)
    case Some(i) => Some(locations[i].id)
    case None => None
  }

  /**
   * `tech_map[choice]` where `tech_map` maps each technician's name to its
   * id (the last one of that name) and then "Unassigned" to None, so that
   * "Unassigned" means no technician even if a technician has that name.
   */
  function TechIdByChoice(techs: seq<Tech>, choice: string): (id: Option<string>)
    ensures choice == UNASSIGNED ==> id.None?
    ensures choice != UNASSIGNED ==> (id.Some? <==> exists i :: 0 <= i < |techs| && techs[i].name == choice)
    ensures id.Some? ==> exists i :: 0 <= i < |techs| && techs[i].name == choice && techs[i].id == id.value
                           && forall j :: i < j < |techs| ==> techs[j].name != choice
  {
    if choice == UNASSIGNED then None
    else match FindLast(techs, (t: Tech) => t.name == choice)
      case Some(i) => Some(techs[i].id)
      case None => None
  }

  // ---------------------------------------------------------- initials

  /** The first character of every word, in order. */
  function FirstLetters(ws: seq<string>): (r: string)
    requires forall k :: 0 <= k < |ws| ==> IsWord(ws[k])
    ensures |r| == |ws| && forall k :: 0 <= k < |ws| ==> IsWord(ws[k]) && r[k] == ws[k][0]
  {
    if ws == [] then [] else assert IsWord(ws[0]); [ws[0][0]] + FirstLetters(ws[1..])
  }

  function Min(a: nat, b: nat): nat { if a < b then a else b }

  /** `"".join([n[0] for n in name.split()]).upper()[:2]` */
  function Initials(name: string): (r: string)
    ensures |r| == Min(2, |Words(name)|)
    ensures forall k :: 0 <= k < |r| ==> IsWord(Words(name)[k]) && r[k] == UpperChar(Words(name)[k][0])
  {
    WordsAreWords(name);
    var letters := Upper(FirstLetters(Words(name)));
    letters[..Min(2, |letters|)]
  }

  /** A one-word name gives a single initial. */
  lemma InitialsOfOneWord(w: string)
    requires IsWord(w)
    ensures Initials(w) == [UpperChar(w[0])]
  {
    WordsOfOneWord(w);
  }

  /** A blank name (empty, or separators only) gives no initials. */
  lemma InitialsOfBlank(name: string)
    requires forall i :: 0 <= i < |name| ==> IsSpace(name[i])
    ensures Initials(name) == []
  {
    BlankHasNoWords(name);
  }

  /** A first and a last name, separated by whitespace, give their two initials: "Alex Rivera" gives "AR". */
  lemma InitialsOfTwoWords(first: string, c: char, last: string)
    requires IsWord(first) && IsSpace(c) && IsWord(last)
    ensures Initials(first + [c] + last) == [UpperChar(first[0]), UpperChar(last[0])]
  {
    WordsOfTwoWords(first, c, last);
    var r := Initials(first + [c] + last);
    assert |r| == 2 && r[0] == UpperChar(first[0]) && r[1] == UpperChar(last[0]);
  }

  /** For a name written as words joined by spaces, the initials are those of the first two words, in order. */
  lemma InitialsOfWords(ws: seq<string>)
    requires forall k :: 0 <= k < |ws| ==> IsWord(ws[k])
    ensures |Initials(Unwords(ws))| == Min(2, |ws|)
    ensures forall k :: 0 <= k < Min(2, |ws|) ==> IsWord(ws[k]) && Initials(Unwords(ws))[k] == UpperChar(ws[k][0])
  {
    WordsOfUnwords(ws);
  }

  // ------------------------------------------------------ the chat context

  /** What the assistant sees of a report: no id and no photo data, only how many photos there were. */
  datatype ReportDigest = ReportDigest(timestamp: string, techId: string, content: string, photoCount: nat)

  /** What the assistant sees of a job: every field, with reports digested. */
  datatype JobDigest = JobDigest(
    id: string, title: string, description: string, jobType: JobType, priority: Priority,
    status: Status, locationId: string, techId: Option<string>, date: string,
    reports: seq<ReportDigest>)

  function DigestReport(r: Report): ReportDigest {
    ReportDigest(r.timestamp, r.techId, r.content, |r.photos|)
  }

  function DigestJob(j: Job, reports: seq<ReportDigest>): JobDigest {
    JobDigest(j.id, j.title, j.description, j.jobType, j.priority, j.status, j.locationId, j.techId, j.date, reports)
  }

  /**
   * The `simple_jobs` loop of `render_chatbot`: for each job, in order, a copy
   * without `reports`, then a digest of each of its reports, in order.
   */
  method ChatContext(jobs: seq<Job>) returns (simple: seq<JobDigest>)
    ensures |simple| == |jobs|
    ensures forall i :: 0 <= i < |jobs| ==>
              |simple[i].reports| == |jobs[i].reports| &&
              simple[i] == DigestJob(jobs[i], simple[i].reports) &&
              forall k :: 0 <= k < |jobs[i].reports| ==> simple[i].reports[k] == DigestReport(jobs[i].reports[k])
  {
    simple := [];
    var i := 0;
    while i < |jobs|
      invariant 0 <= i <= |jobs| && |simple| == i
      invariant forall n :: 0 <= n < i ==>
                  |simple[n].reports| == |jobs[n].reports| &&
                  simple[n] == DigestJob(jobs[n], simple[n].reports) &&
                  forall k :: 0 <= k < |jobs[n].reports| ==> simple[n].reports[k] == DigestReport(jobs[n].reports[k])
    {
      var reports := jobs[i].reports;
      var clean: seq<ReportDigest> := [];
      var k := 0;
      while k < |reports|
        invariant 0 <= k <= |reports| && |clean| == k
        invariant forall m :: 0 <= m < k ==> clean[m] == DigestReport(reports[m])
      {
        clean := clean + [ReportDigest(reports[k].timestamp, reports[k].techId, reports[k].content, |reports[k].photos|)];
        k := k + 1;
      }
      simple := simple + [DigestJob(jobs[i], clean)];
      i := i + 1;
    }
  }

  /** Puts back what the digest left out: the report ids and the photos. */
  function RestoreJob(d: JobDigest, reportIds: seq<string>, photos: seq<seq<Photo>>): Job
    requires |reportIds| == |d.reports| == |photos|
  {
    Job(d.id, d.title, d.description, d.jobType, d.priority, d.status, d.locationId, d.techId, d.date,
        seq(|d.reports|, k requires 0 <= k < |d.reports| =>
          Report(reportIds[k], d.reports[k].techId, d.reports[k].timestamp, d.reports[k].content, photos[k])))
  }

  /**
   * The digest loses only report ids and photo data: putting those back
   * restores the job, and each digest counts its report's photos.
   */
  lemma DigestLosesOnlyPhotos(j: Job, d: JobDigest)
    requires |d.reports| == |j.reports|
    requires d == DigestJob(j, d.reports)
    requires forall k :: 0 <= k < |j.reports| ==> d.reports[k] == DigestReport(j.reports[k])
    ensures RestoreJob(d, seq(|j.reports|, k requires 0 <= k < |j.reports| => j.reports[k].id),
                          seq(|j.reports|, k requires 0 <= k < |j.reports| => j.reports[k].photos)) == j
    ensures forall k :: 0 <= k < |j.reports| ==> d.reports[k].photoCount == |j.reports[k].photos|
  {
    var ids := seq(|j.reports|, k requires 0 <= k < |j.reports| => j.reports[k].id);
    var photos := seq(|j.reports|, k requires 0 <= k < |j.reports| => j.reports[k].photos);
    assert RestoreJob(d, ids, photos).reports == j.reports;
  }

  // ------------------------------------------------------------ reports

  /** The photo list of a new report: the camera shot first, then the uploads in upload order. */
  method CollectPhotos(camera: Option<Photo>, uploads: seq<Photo>) returns (photos: seq<Photo>)
    ensures |photos| == |uploads| + (if camera.Some? then 1 else 0)
    ensures camera.Some? ==> photos[0] == camera.value && photos[1..] == uploads
    ensures camera.None? ==> photos == uploads
    ensures photos == (if camera.Some? then [camera.value] else []) + uploads
  {
    photos := [];
    if camera.Some? {
      photos := photos + [camera.value];
    }
    ghost var first := photos;
    var i := 0;
    while i < |uploads|
      invariant 0 <= i <= |uploads|
      invariant photos == first + uploads[..i]
    {
      photos := photos + [uploads[i]];
      i := i + 1;
    }
    assert uploads[..i] == uploads;
  }

  // ------------------------------------------------------------ the store

  datatype CreateOutcome =
    | NoLocations                                        // the dialog only asks for a location first
    | NotSubmitted                                       // empty title: nothing is saved
    | Created(email: Option<MailConfig.SendOutcome>, notice: string)

  /**
   * Whether creation tries to email the assignee, and with what result: only
   * for a truthy technician id whose technician and location both resolve.
   */
  function AssignmentEmail(techs: seq<Tech>, locations: seq<Location>, techId: Option<string>, locId: string,
                           env: MailConfig.Env, secrets: MailConfig.Secrets, delivered: bool): (r: Option<MailConfig.SendOutcome>)
    ensures r.Some? <==> !Falsy(techId) && GetTech(techs, techId).Some? && GetLocation(locations, locId).Some?
    ensures r.Some? ==> r.value == MailConfig.AssignmentSend(env, secrets, delivered)
  {
    if Falsy(techId) then None
    else if GetTech(techs, techId).Some? && GetLocation(locations, locId).Some? then
      Some(MailConfig.AssignmentSend(env, secrets, delivered))
    else None
  }

  /** The toast shown after creation: the manual-notify hint exactly when an email was tried and did not go out. */
  function CreationNotice(email: Option<MailConfig.SendOutcome>): (notice: string)
    ensures notice == MANUAL_NOTIFY <==> email.Some? && email.value != MailConfig.Sent
  {
    if email.Some? && email.value != MailConfig.Sent then MANUAL_NOTIFY else JOB_CREATED
  }

  /** An id chosen in the form names a technician and a location of the store, so both lookups resolve. */
  lemma ChoicesResolve(techs: seq<Tech>, locations: seq<Location>, choice: string, locName: string)
    requires LocationIdByName(locations, locName).Some?
    ensures GetLocation(locations, LocationIdByName(locations, locName).value).Some?
    ensures TechIdByChoice(techs, choice).Some? ==> GetTech(techs, TechIdByChoice(techs, choice)).Some?
  {
    var lid := LocationIdByName(locations, locName).value;
    var i :| 0 <= i < |locations| && locations[i].name == locName && locations[i].id == lid
             && forall j :: i < j < |locations| ==> locations[j].name != locName;
    assert locations[i].id == lid;
    var tid := TechIdByChoice(techs, choice);
    if tid.Some? {
      var t :| 0 <= t < |techs| && techs[t].name == choice && techs[t].id == tid.value
               && forall j :: t < j < |techs| ==> techs[j].name != choice;
      assert Some(techs[t].id) == tid;
    }
  }

  /** Creating a job emails the assignee exactly when a technician other than "Unassigned" with a non-empty id was chosen. */
  lemma EmailAttemptedIffAssigned(techs: seq<Tech>, locations: seq<Location>, choice: string, locName: string,
                                  env: MailConfig.Env, secrets: MailConfig.Secrets, delivered: bool)
    requires LocationIdByName(locations, locName).Some?
    ensures var techId := TechIdByChoice(techs, choice);
            AssignmentEmail(techs, locations, techId, LocationIdByName(locations, locName).value, env, secrets, delivered).Some?
            <==> !Falsy(techId)
  {
    ChoicesResolve(techs, locations, choice, locName);
  }

  class JobStore {
    var jobs: seq<Job>
    var techs: seq<Tech>
    var locations: seq<Location>
    var briefing: string

    /** The session state as loaded from the persisted document. */
    constructor (jobs: seq<Job>, techs: seq<Tech>, locations: seq<Location>, briefing: string)
      ensures this.jobs == jobs && this.techs == techs && this.locations == locations && this.briefing == briefing
    {
      this.jobs := jobs;
      this.techs := techs;
      this.locations := locations;
      this.briefing := briefing;
    }

    /**
     * `add_job_dialog` on "Save Job". With no locations nothing can be
     * created; an empty title saves nothing. Otherwise a Pending job with no
     * reports goes to the front of the list, the assignee is emailed when one
     * was chosen, a failed email only changes the notice, and the briefing is
     * marked stale.
     */
    method CreateJob(title: string, description: string, jobType: JobType, priority: Priority,
                     locationName: string, techChoice: string, idSuffix: string, now: string,
                     env: MailConfig.Env, secrets: MailConfig.Secrets, delivered: bool)
      returns (outcome: CreateOutcome)
      requires locations != [] ==> exists i :: 0 <= i < |locations| && locations[i].name == locationName
      requires techChoice == UNASSIGNED || exists i :: 0 <= i < |techs| && techs[i].name == techChoice
      modifies this
      ensures techs == old(techs) && locations == old(locations)
      ensures old(locations) == [] ==> outcome == NoLocations && jobs == old(jobs) && briefing == old(briefing)
      ensures old(locations) != [] && title == "" ==>
                outcome == NotSubmitted && jobs == old(jobs) && briefing == old(briefing)
      ensures old(locations) != [] && title != "" ==>
                && outcome.Created?
                && |jobs| == |old(jobs)| + 1
                && jobs[1..] == old(jobs)
                && jobs[0] == Job("j" + NatToString(|old(jobs)| + 100) + "_" + idSuffix, title, description,
                                  jobType, priority, Pending, LocationIdByName(locations, locationName).value,
                                  TechIdByChoice(techs, techChoice), now, [])
                && (outcome.email.Some? <==> !Falsy(jobs[0].techId))
                && (outcome.email.Some? ==> outcome.email.value == MailConfig.AssignmentSend(env, secrets, delivered))
                && (outcome.notice == MANUAL_NOTIFY <==> outcome.email.Some? && outcome.email.value != MailConfig.Sent)
                && briefing == Persistence.BRIEFING_STALE
    {
      if locations == [] {
        return NoLocations;
      }
      if title == "" {
        return NotSubmitted;
      }
      var locId := LocationIdByName(locations, locationName).value;
      var techId := TechIdByChoice(techs, techChoice);
      var job := Job("j" + NatToString(|jobs| + 100) + "_" + idSuffix, title, description,
                     jobType, priority, Pending, locId, techId, now, []);
      jobs := [job] + jobs;
      EmailAttemptedIffAssigned(techs, locations, techChoice, locationName, env, secrets, delivered);
      var email := AssignmentEmail(techs, locations, techId, locId, env, secrets, delivered);
      briefing := Persistence.BRIEFING_STALE;
      outcome := Created(email, CreationNotice(email));
    }

    /**
     * The status selector of `job_details_dialog`: a different status is
     * written to that job alone and marks the briefing stale; choosing the
     * current status, or an unknown job, changes nothing.
     */
    method SetStatus(jobId: string, newStatus: Status) returns (changed: bool)
      modifies this
      ensures techs == old(techs) && locations == old(locations)
      ensures var k := FindJob(old(jobs), jobId);
              changed <==> k.Some? && old(jobs)[k.value].status != newStatus
      ensures changed ==>
                var k := FindJob(old(jobs), jobId).value;
                jobs == old(jobs)[k := old(jobs)[k].(status := newStatus)] && briefing == Persistence.BRIEFING_STALE
      ensures !changed ==> jobs == old(jobs) && briefing == old(briefing)
    {
      changed := false;
      var k := FindJob(jobs, jobId);
      if k.None? {
        return;
      }
      var i := k.value;
      if newStatus != jobs[i].status {
        jobs := jobs[i := jobs[i].(status := newStatus)];
        briefing := Persistence.BRIEFING_STALE;
        changed := true;
      }
    }

    /**
     * "Submit Report" of `job_details_dialog`: with non-empty content, a
     * report authored by the job's technician ("unknown" when unassigned) is
     * appended to that job's history. The briefing is left as it is.
     * `encoded` says whether every attached photo was encoded as JPEG without
     * raising; when one raises (a PNG with transparency or a palette, say) the
     * handler stops before the append and nothing changes.
     */
    method SubmitReport(jobId: string, content: string, camera: Option<Photo>, uploads: seq<Photo>,
                        encoded: bool, idSuffix: string, now: string)
      returns (filed: bool)
      modifies this
      ensures techs == old(techs) && locations == old(locations) && briefing == old(briefing)
      ensures filed <==> FindJob(old(jobs), jobId).Some? && content != "" && encoded
      ensures filed ==>
                var k := FindJob(old(jobs), jobId).value;
                var job := old(jobs)[k];
                var photos := (if camera.Some? then [camera.value] else []) + uploads;
                jobs == old(jobs)[k := job.(reports := job.reports +
                          [Report("r" + idSuffix, AuthorOr(job.techId, UNKNOWN_AUTHOR), now, content, photos)])]
      ensures !filed ==> jobs == old(jobs)
    {
      filed := false;
      var k := FindJob(jobs, jobId);
      if k.None? || content == "" || !encoded {
        return;
      }
      var i := k.value;
      var photos := CollectPhotos(camera, uploads);
      var report := Report("r" + idSuffix, AuthorOr(jobs[i].techId, UNKNOWN_AUTHOR), now, content, photos);
      jobs := jobs[i := jobs[i].(reports := jobs[i].reports + [report])];
      filed := true;
    }

    /**
     * "Add Technician": needs a name and an email; the new technician goes
     * to the end of the roster with derived initials and the next colour of
     * the seven-colour cycle.
     */
    method AddTech(name: string, email: string, idSuffix: string) returns (added: bool)
      modifies this
      ensures jobs == old(jobs) && locations == old(locations) && briefing == old(briefing)
      ensures added <==> name != "" && email != ""
      ensures added ==>
                techs == old(techs) + [Tech("t" + idSuffix, name, email, Initials(name), TECH_COLORS[|old(techs)| % |TECH_COLORS|])]
      ensures !added ==> techs == old(techs)
    {
      added := name != "" && email != "";
      if added {
        var color := TECH_COLORS[|techs| % |TECH_COLORS|];
        techs := techs + [Tech("t" + idSuffix, name, email, Initials(name), color)];
      }
    }

    /** "Remove" next to a technician: drops that entry from the roster; jobs keep their `techId`. */
    method RemoveTech(t: Tech)
      requires t in techs
      modifies this
      ensures jobs == old(jobs) && locations == old(locations) && briefing == old(briefing)
      ensures techs == RemoveFirst(old(techs), t)
    {
      techs := RemoveFirst(techs, t);
    }

    /** "Add Location": needs a name (the address may be empty); the location goes to the end. */
    method AddLocation(name: string, address: string, idSuffix: string) returns (added: bool)
      modifies this
      ensures jobs == old(jobs) && techs == old(techs) && briefing == old(briefing)
      ensures added <==> name != ""
      ensures added ==> locations == old(locations) + [Location("l" + idSuffix, name, address)]
      ensures !added ==> locations == old(locations)
    {
      added := name != "";
      if added {
        locations := locations + [Location("l" + idSuffix, name, address)];
      }
    }

    /** "Remove" next to a location: drops that entry; jobs keep their `locationId`. */
    method RemoveLocation(l: Location)
      requires l in locations
      modifies this
      ensures jobs == old(jobs) && techs == old(techs) && briefing == old(briefing)
      ensures locations == RemoveFirst(old(locations), l)
    {
      locations := RemoveFirst(locations, l);
    }

    /**
     * The Morning Briefing tab: a stale briefing is replaced by a freshly
     * generated one, but only when there are jobs.
     */
    method AutoBriefing(generated: string) returns (regenerated: bool)
      modifies this
      ensures jobs == old(jobs) && techs == old(techs) && locations == old(locations)
      ensures regenerated <==> old(briefing) == Persistence.BRIEFING_STALE && old(jobs) != []
      ensures regenerated ==> briefing == generated
      ensures !regenerated ==> briefing == old(briefing)
    {
      regenerated := briefing == Persistence.BRIEFING_STALE && jobs != [];
      if regenerated {
        briefing := generated;
      }
    }
  }

  // ------------------------------------------- handlers and the views

  /** A created job is open, so it joins the front of the active list and leaves the Archive as it was. */
  lemma CreatedJobIsActive(old_jobs: seq<Job>, job: Job)
    requires job.status == Pending
    ensures Views.ActiveJobs([job] + old_jobs) == [job] + Views.ActiveJobs(old_jobs)
    ensures Views.Archive([job] + old_jobs) == Views.Archive(old_jobs)
  {
    FilterConcat([job], old_jobs, Views.IsActive);
    FilterConcat([job], old_jobs, IsCompleted);
  }

  /** Completing an open job moves it from the active list to the Archive: one fewer active, one more archived. */
  lemma CompletingMovesToArchive(jobs: seq<Job>, k: nat)
    requires k < |jobs| && jobs[k].status != Completed
    ensures var after := jobs[k := jobs[k].(status := Completed)];
            |Views.Archive(after)| == |Views.Archive(jobs)| + 1 &&
            |Views.ActiveJobs(after)| == |Views.ActiveJobs(jobs)| - 1
  {
    var y := jobs[k].(status := Completed);
    FilterUpdateCount(jobs, k, y, IsCompleted);
    FilterUpdateCount(jobs, k, y, Views.IsActive);
  }
}
