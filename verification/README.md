# ServiceCommand dashboards — a Dafny model of the job store

ServiceCommand is a field-service dispatch dashboard written twice in Python
with Streamlit:

- `app.py` is the persistent edition. Jobs, technicians, locations and the
  cached "Morning Briefing" live in a JSON file. They are loaded on every
  rerun and saved after every change. It also assigns technicians by email
  and adds an admin panel.
- `streamlit_app.py` is the demo edition. Technicians and locations are fixed
  tables. The job list and the briefing live in one browser session only.

This project models the data each dashboard keeps, and what every handler
does to it:

- creating a job;
- changing its status;
- filing a report with photos;
- adding and removing technicians and locations;
- invalidating and regenerating the briefing;
- loading the persisted document.

It also models the pure helpers these handlers rely on:

- the id lookups;
- the job lists `main()` builds (search, tabs, Tech Board columns, Priority
  Feed, counts);
- the initials of a new technician;
- the choice of LLM model;
- the SMTP configuration decision;
- the `mailto:` link;
- the job list handed to the chat assistant.

Layout:

- `wrappers.dfy`, `text.dfy`, `lists.dfy`: Python behaviour the handlers
  rely on. This covers `str.lower`/`str.upper`, `in` on strings,
  `str.split()`, `str(n)`, `next(...)`, list comprehensions, dict
  comprehensions (last key wins) and `list.remove`.
- `records.dfy`: jobs, reports, technicians, locations.
- `views.dfy`: the lists of `main()`. Both files build them with the same
  comprehensions.
- `persistence.dfy`: `load_data`.
- `mail_config.dfy`: the SMTP settings and the send decision.
- `model_choice.dfy`: `get_available_model`.
- `mailto.dfy`: `create_mailto_link`.
- `store.dfy`: the `app.py` handlers, as a `JobStore` class whose methods update
  its fields.
- `demo.dfy`: the `streamlit_app.py` session, as a `Session` class.

Facts about the code that shape the model:

- Filing a report in `app.py` leaves the cached briefing as it is. Only job
  creation and status changes make it stale (app.py:378, app.py:418,
  app.py:476-479; `Store.JobStore.SubmitReport`).
- A report never changes a job's status.
- Neither file edits a job's fields other than its status and reports, and
  neither deletes a job.
- The status selector writes "Completed" directly; there is no separate
  completion step.
- Location existence at creation is guaranteed by the form's select box, not
  checked. It is a precondition of `Store.JobStore.CreateJob` and
  `Demo.Session.CreateJob`.
- `streamlit_app.py` does not require a title.
- `get_api_key` in `app.py` consults the secrets first (GEMINI_API_KEY) and
  the environment second (API_KEY), the reverse of the SMTP settings
  (`ModelChoice.ApiKey`).

## Model

| member | source | states |
|---|---|---|
| Persistence.Defaults | app.py:95-100 | the defaults are exactly jobs, techs, locations (empty lists) and briefing (the stale sentinel) |
| Persistence.LoadData | app.py:93-114 | missing file or read/decode error gives exactly the defaults; otherwise every key of the document is kept with its value, each missing default key gets its default, the result always has the four keys, and a complete document is returned unchanged |
| Records.AuthorOr | app.py:471 | a report's author is the job's technician id when truthy, the fallback when the id is None or empty |
| Lists.Filter | app.py:699 | a comprehension keeps exactly the elements satisfying the test, never more elements than given, as a sub-multiset |
| Lists.FilterPartition | app.py:677-725 | two complementary tests split a list: the two kept lists together are a permutation of it |
| Lists.FilterUpdateCount | app.py:416 | replacing one element changes the number kept by the test by exactly what the test says of the old and new element |
| Lists.FindFirst | app.py:150-154 | `next(...)` finds the first index satisfying the test, and None exactly when none does |
| Lists.FindLast | app.py:341 | a dict comprehension keeps the last element with a given key, and None exactly when none has it |
| Lists.RemoveFirst | app.py:546 | `list.remove` deletes the first equal element only: length drops by one, multiset loses one copy |
| Text.Lower | app.py:655 | lowercasing keeps the length and maps each character |
| Text.Upper | app.py:533 | uppercasing keeps the length and maps each character |
| Text.Contains | app.py:655 | `needle in hay` as a scan of every start position: a match needs room in the hay, and the empty needle is always found; `ContainsIff` ties it to the definition of a substring |
| Text.ContainsIff | app.py:655 | `needle in hay` holds iff the needle occurs at some position of the hay |
| Text.Words | app.py:533 | `str.split()` with no separator: each word uses up at least one character; `WordsAreWords`, `BlankHasNoWords`, `WordsOfOneWord` and `WordsSplitAtSpace` characterise it completely, and `WordsOfUnwords` makes it the inverse of `" ".join` |
| Text.WordsAreWords | app.py:533 | `split()` yields only non-empty words free of whitespace |
| Text.BlankHasNoWords | app.py:533 | a string of whitespace alone splits into no words |
| Text.WordsOfOneWord | app.py:533 | a single word splits into itself |
| Text.WordsSplitAtSpace | app.py:533 | a whitespace character cuts the text: the words of the whole are the words before it followed by the words after it |
| Text.WordsOfTwoWords | app.py:533 | two words with whitespace between them split into exactly those two words |
| Text.WordsOfUnwords | app.py:533 | words joined by single spaces split back into the same words (the inverse of `" ".join`) |
| Text.NatToString | app.py:352 | `str(n)`: a non-empty string of decimal digits that starts with '0' only for zero, so it has no leading zeros; `NatToStringValue` shows its digits spell `n`, and `NatToStringInjective` shows distinct numbers give distinct numerals |
| Text.NatToStringValue | app.py:352 | read back as a decimal numeral, most significant digit first, `str(n)` denotes `n` itself |
| Text.NatToStringInjective | streamlit_app.py:203 | distinct counts give distinct decimal numerals, so numbered ids differ |
| Views.SearchJobs | app.py:653-655 | an empty query keeps every job; kept jobs come from the list and match the query, and every matching job is kept |
| Views.SearchIsFilter | app.py:654-655 | the `if search:` guard changes nothing: an empty query matches every job anyway |
| Views.SearchSelects | app.py:655 | a job is kept iff the lowercased query occurs in its lowercased title or description |
| Views.SearchIgnoresQueryCase | app.py:655 | queries equal up to case select the same jobs |
| Views.Archive | app.py:725 | the Archive holds exactly the Completed jobs |
| Views.ActiveJobs | app.py:677 | the active list holds exactly the jobs that are not Completed |
| Views.ServiceCalls | app.py:711 | Service Calls holds exactly the open Service jobs |
| Views.Projects | app.py:718 | Projects holds exactly the open Project jobs |
| Views.TechColumn | app.py:699 | a technician's column holds exactly the open jobs assigned to that technician |
| Views.Unassigned | app.py:705 | the Unassigned column holds exactly the open jobs whose technician id is None or empty |
| Views.DanglingTechHidden | app.py:697-706 | a job whose non-empty technician id names no technician on the board is in no Tech Board column, Unassigned included |
| Views.UnassignedColumnExclusive | app.py:699-705 | an open job with a None or empty technician id is in Unassigned and in no column of a technician with a non-empty id |
| Views.PriorityFeed | app.py:685 | the Priority Feed holds exactly the open Critical or High jobs |
| Views.CriticalCount | app.py:678 | the Critical count is zero iff no job is Critical, and with the count of non-Critical jobs adds up to the job count |
| Views.CriticalCountStep | app.py:678 | an empty list counts zero, and putting a job in front adds one exactly when that job is Critical, which fixes the count on every list |
| Views.ArchiveActivePartition | app.py:677-725 | every job is in exactly one of Archive and the active list |
| Views.ServiceProjectPartition | app.py:711-718 | the open jobs split exactly into Service Calls and Projects |
| MailConfig.Setting | app.py:233-236 | a setting comes from the environment when set there, else from the secrets; it is truthy iff one of them provides a non-empty value |
| MailConfig.ResolveSmtp | app.py:233-236 | server, sender and password are each resolved by `Setting`; the port is a non-empty environment value, else the secret, else 587 |
| MailConfig.IsConfigured | app.py:264 | the transport is configured iff server, sender and password each have a non-empty value in the environment or the secrets |
| MailConfig.PortIrrelevant | app.py:264 | the port setting never changes whether the transport is configured |
| MailConfig.AssignmentSend | app.py:264-285 | no connection is attempted unless server, sender and password are all truthy; with them, the result is Sent iff delivery succeeded |
| ModelChoice.ApiKey | app.py:161-165 | the secret GEMINI_API_KEY when present, otherwise the environment's API_KEY, and None iff neither is set |
| ModelChoice.ValidModels | app.py:179 | a model is valid iff it is listed and supports generateContent |
| ModelChoice.FirstNamed | app.py:184 | the first listed model whose name contains the pattern, and None iff no name contains it |
| ModelChoice.PreferenceChain | app.py:184-200 | the chain returns a listed model, and nothing only for an empty list |
| ModelChoice.PickModel | app.py:167-209 | a failed listing or no model supporting generation gives "gemini-pro"; when some listed model supports generation, the choice is the name of such a model |
| ModelChoice.ChainPicksEarliestPreference | app.py:184-196 | the first preference some model matches selects the first model matching it |
| ModelChoice.ChainFallsBack | app.py:198-199 | when no preference matches, the first valid model is taken |
| ModelChoice.PickPrefersEarliest | app.py:184-196 | on a successful listing, the first preference some valid model matches picks the first valid model matching it |
| ModelChoice.PickFallsBackToFirstValid | app.py:198-207 | on a successful listing where no valid model matches a preference, the first valid model is picked, or "gemini-pro" when there is none |
| ModelChoice.FlashPreferred | app.py:184 | a generation-capable 1.5 Flash model always wins |
| Mailto.QueryRoundTrip | app.py:227 | the query string splits back into `subject=` and `body=` with their encoded values |
| Mailto.MailtoLink | app.py:211-228 | for a '?'-free address, the link parses back into the technician's address, the encoded subject and the encoded body |
| Mailto.LinkRoundTrip | app.py:228 | any `mailto:` link with a '?'-free recipient and such a query reads back into the recipient and the two encoded values |
| Store.FindJob | app.py:391 | the index of the first job with that id, and None iff no job has it |
| Store.GetTech | app.py:150-151 | the first technician with that id, None iff there is none |
| Store.GetLocation | app.py:153-154 | the first location with that id, None iff there is none |
| Store.LocationIdByName | app.py:341-342 | a chosen location name yields the id of the last location with that name |
| Store.TechIdByChoice | app.py:345-347 | "Unassigned" yields None; another name yields the id of the last technician with that name |
| Store.Initials | app.py:533 | at most two characters: the uppercased first letters of the first words of the name |
| Store.InitialsOfOneWord | app.py:533 | a one-word name gives a single initial |
| Store.InitialsOfBlank | app.py:533 | a name of whitespace alone gives no initials |
| Store.InitialsOfTwoWords | app.py:533 | a first and a last name give their two uppercased first letters |
| Store.InitialsOfWords | app.py:533 | a name made of words joined by spaces gives the uppercased first letters of its first two words |
| Store.ChatContext | app.py:599-614 | one digest per job, in order, keeping every job field and, per report, timestamp, author, content and the photo count |
| Store.DigestLosesOnlyPhotos | app.py:599-614 | putting back the report ids and photos restores the job exactly |
| Store.CollectPhotos | app.py:455-467 | the camera photo first, when present, then every upload in upload order: exactly the camera list followed by the uploads |
| Store.AssignmentEmail | app.py:366-375 | an email is attempted iff a truthy technician id was chosen and technician and location both resolve |
| Store.CreationNotice | app.py:366-385 | the manual-notify notice is shown iff an email was attempted and not delivered |
| Store.ChoicesResolve | app.py:341-371 | ids chosen in the creation form always resolve in the store |
| Store.EmailAttemptedIffAssigned | app.py:366-372 | creation emails iff the chosen technician id is truthy |
| Store.JobStore.constructor | app.py:134-138 | the store holds the four loaded values |
| Store.JobStore.CreateJob | app.py:326-386 | no locations or an empty title change nothing; otherwise a Pending job with no reports and the chosen ids goes in front of the unchanged old jobs, the email outcome sets the notice, and the briefing becomes stale |
| Store.JobStore.SetStatus | app.py:389-419 | only a different status is written, to the first job with that id and to its status alone, and then the briefing becomes stale; otherwise nothing changes |
| Store.JobStore.SubmitReport | app.py:455-478 | with content and every photo encoded, one report (author from `AuthorOr` with "unknown", camera then uploads) is appended to that job alone; a photo that fails to encode aborts the handler and nothing changes; the briefing is untouched |
| Store.JobStore.AddTech | app.py:527-538 | with name and email, a technician with derived initials and colour `TECH_COLORS[n % 7]` is appended; otherwise nothing changes |
| Store.JobStore.RemoveTech | app.py:544-548 | the first equal technician is removed; jobs keep their ids |
| Store.JobStore.AddLocation | app.py:553-561 | with a name, the location is appended; otherwise nothing changes |
| Store.JobStore.RemoveLocation | app.py:566-571 | the first equal location is removed; jobs keep their ids |
| Store.JobStore.AutoBriefing | app.py:667-671 | the briefing is regenerated iff it is the stale sentinel and there are jobs |
| Store.CreatedJobIsActive | app.py:363 | a created job heads the active list and leaves the Archive unchanged |
| Store.CompletingMovesToArchive | app.py:416 | completing an open job adds one to the Archive and removes one from the active list |
| Demo.GetTech | streamlit_app.py:136-137 | the first roster entry with that id, None iff there is none |
| Demo.GetLocation | streamlit_app.py:139-140 | the first table location with that id, None iff there is none |
| Demo.TechIdsDistinct | streamlit_app.py:86-92 | the roster ids are pairwise distinct |
| Demo.LocationIdsDistinct | streamlit_app.py:94-100 | the location ids are pairwise distinct |
| Demo.TechFoundById | streamlit_app.py:136-137 | every roster entry is found by its own id |
| Demo.LocationFoundById | streamlit_app.py:139-140 | every table location is found by its own id |
| Demo.InitialJobs | streamlit_app.py:102-122 | three seed jobs, each dated by its own clock reading, all open and assigned; only the second has a report, stamped with a reading less an hour and filed by its own technician |
| Demo.InitialJobsResolve | streamlit_app.py:102-122 | the seed jobs refer only to technicians and locations in the tables |
| Demo.InitialJobsNumbered | streamlit_app.py:102-122 | the seed ids are j1, j2, j3, distinct and below the first created id |
| Demo.PrependNumbered | streamlit_app.py:203-214 | a job numbered n put in front leaves every id numbered by its serial |
| Demo.PrependFresh | streamlit_app.py:203 | the serial count+100 is new and stays below the raised bound |
| Demo.PrependKeepsNumbering | streamlit_app.py:203-214 | putting a job numbered count+100 in front keeps the ids distinct |
| Demo.EditKeepsNumbering | streamlit_app.py:239 | replacing one job by a job with the same id keeps the numbering |
| Demo.TechIdByChoice | streamlit_app.py:196-198 | "Unassigned" yields None; a roster name yields that technician's id |
| Demo.StripReports | streamlit_app.py:353 | dropping the `reports` key loses nothing else: adding the reports back restores the job |
| Demo.ChatJobs | streamlit_app.py:353 | one entry per job, in order, from which the job is restored by adding back its reports |
| Demo.ChatJobsLoseOnlyReports | streamlit_app.py:353 | jobs with the same reports give the same context iff they are equal |
| Demo.Session.IdsUnique | streamlit_app.py:203 | no two jobs of a session share an id |
| Demo.Session.constructor | streamlit_app.py:125-128 | a new session has neither key yet |
| Demo.Session.Seed | streamlit_app.py:125-128 | absent keys get the seed jobs and a None briefing; present values are kept |
| Demo.Session.CreateJob | streamlit_app.py:190-215 | even with an empty title, a Pending job with id "j" + (count + 100) and no reports goes in front of the old jobs; the briefing is untouched; ids stay unique |
| Demo.Session.SetStatus | streamlit_app.py:226-240 | only a different status is written, to that job alone; the briefing is untouched |
| Demo.Session.SubmitReport | streamlit_app.py:275-297 | with content and every photo encoded, one report (author falls back to "t1", camera then uploads) is appended to that job alone; a photo that fails to encode aborts the handler and nothing changes |
| Demo.Session.GenerateBriefing | streamlit_app.py:404-408 | a briefing is stored iff the current one is falsy; nothing else changes |
| Demo.Session.RefreshBriefing | streamlit_app.py:409-413 | a shown (truthy) briefing is cleared to None; a falsy one is left exactly as it was; afterwards it is always falsy |

## Left out

- Rendering is not modelled: Streamlit widgets, CSS, dialogs, toasts and reruns. Form values are method parameters. The select boxes' guarantee that a chosen name exists is a precondition.
- Calls to the Gemini service are not modelled: `generate_morning_briefing`, the chat reply and `genai.list_models`. Their results are parameters: the briefing text, and the model listing (None when listing raised). The briefing text may be a warning or error message; the model treats it as text like any other.
- The SMTP dialogue is not modelled: connect, STARTTLS, login, send, and building the MIME message and its body. Whether delivery succeeded is a parameter. Converting the port with `int()` is also left out; a failure there is one more way to get the `delivered = false` outcome.
- `load_data` catches only `json.JSONDecodeError` and `IOError` (app.py:113). A file that is not valid UTF-8 raises `UnicodeDecodeError`, which escapes, so `load_data` raises. `Persistence.FileRead` has no outcome for that; its `Unreadable` case stands for the caught errors only.
- With no technicians, the Tech Board shows a notice and builds no columns, not even Unassigned (app.py:691-693). `Views.TechColumn` and `Views.Unassigned` describe the columns' contents when the board is built.
- `save_state` and file reading and JSON parsing in `load_data` are left out. The outcome of the read is a parameter. A document that is valid JSON but not an object is not modelled. Converting the loaded JSON values into typed jobs, technicians and locations is not modelled; the store takes typed values.
- Photo decoding and base64 JPEG encoding are left out; a photo is an opaque string. Whether encoding succeeds is the `encoded` parameter of `Store.JobStore.SubmitReport` and `Demo.Session.SubmitReport`. `image_to_base64` saves every image as JPEG, which raises for images with transparency or a palette (PNG uploads are accepted), and the raised error ends the handler before the report is appended. Which images raise is not modelled.
- Percent-encoding (`urllib.parse.quote`) is a parameter. Only its documented guarantees are used: delimiters never survive it, and plain words are unchanged.
- Clock readings and timestamp-based id suffixes are parameters. `Demo.InitialJobs` takes one reading per `datetime.datetime.now()` call (three job dates and the report's hour-earlier stamp); the order of the readings is not modelled.
- Text.Lower and Text.Upper map ASCII letters only. Python's full Unicode case mapping is not modelled.
- Text.IsSpace lists the ASCII and Latin-1 whitespace that `str.split()` recognises. Other Unicode separators are not modelled.
- The status selector raises on a status outside the three names. Statuses are a datatype here, so that case cannot arise.
- The chat history kept in the session is not modelled. Neither is the assistant prompt built around the job list.
- Races between sessions writing the same JSON document (last writer wins) are not modelled.
- Neither file contains weekday reminders, a two-phase completion gate, daily-report photo aggregation, geocoding, admin email lists or port-based TLS selection. There is nothing of them to model.
- ModelChoice.PickModel: the four `next(...)` probes are modelled as one chain over the four name fragments in order, followed by the first-valid-model fallback. This is the same selection, written as a recursion.
