# JobAppClient forms and pages, modelled in Dafny

JobAppClient is a React front-end for a job board. Students register, look
for jobs and apply. Companies register, post and edit jobs, review their
applicants and send job alerts. Almost all of its logic lives in event
handlers and effects that turn one piece of component state into the next
one. This project models that logic as pure functions and proves what the
pages promise about it:

- **Applicant review** (`Applicants`). The in-place status update of one
  applicant, its in-flight flag keyed by `jobId-applicantId`, the error
  message chosen on failure, and the colour and caption of the status chip.
- **Job posting and editing** (`PostJob`, `EditJob`). Scalar fields,
  list fields fed from a text box, removal by index, loading a job into the
  edit form, and the PATCH body.
- **Job alerts** (`JobAlert`). The candidate roster, the anchored e-mail
  pattern, the form validation and the snackbar text after sending.
- **Sign-up** (`Signup`, `CompanySignup`, `StudentSignup`). The shared
  validate/change/submit logic, and the company and student forms on top of it.
- **Profile editing** (`StudentProfile`, `CompanyProfile`). Merging the
  server profile into the form, nested edits, and the comma-separated
  list boxes.
- **Job browsing** (`FindJobs`, `JobCard`, `JobList`, `JobDetails`). Search
  filtering, the description preview, deletion with a confirmation dialog,
  the days-to-deadline count and the apply button.

JavaScript values are the `Js.Value` datatype. An object's own properties
are a `map<string, Value>`. A missing property reads as `Undefined`, and
`||`, `?.` and `{...v}` are `Js.Or`, `Js.Prop` and `Js.SpreadOf`. A React
state update is a function from the previous state to the next one. Every
network request, `localStorage` read and clock read is a parameter: the
outcome of the request (`Outcome`, `FetchOutcome`, `SendOutcome`, ...), the
token, or the current time. Strings are `seq<char>`. `trim` and the regex
class `\s` use the ASCII white space characters. `toLowerCase` only changes
ASCII letters.

Facts about the code that the model follows:

- `App.js:26-34` declares no route guarded by a session. The token checks
  that exist are per request (`Applicants.FailureMessage`,
  `EditJob.Load`, `EditJob.SubmitRequest`).
- The student profile load keeps every extra key the server sends, next to
  the form's own keys (`StudentProfile.Load`).
- The company profile load replaces the whole form state with the server
  profile. It does not merge into the defaults (see Findings).
- In the post-job form, a successful add clears `tempInputs[field]`, for
  example `tempInputs.jobHighlights`. The text boxes read `highlight`,
  `requirement` and `skill`, so the typed text stays in the box.
  `PostJob.AddItem` states that the box keeps its text.
- In the job details page, an unparsable deadline gives `NaN` days. `NaN <= 0`
  is false, so the apply button stays enabled and says "Apply Now"
  (`JobDetails.InvalidDeadlineStaysOpen`). Without a `jobId` the fetch never
  runs, so the page keeps its spinner (`JobDetails.NoJobIdKeepsLoading`).
- Clearing a comma-separated box (languages, main services) stores `[""]`,
  not `[]` (`StudentProfile.ClearedLanguages`, `CompanyProfile.ClearedServices`).

## Model

| member | source | states |
|---|---|---|
| Applicants.SetInJob | src/Components/Applicent.jsx:123-128 | Within one job, every applicant whose `studentid` matches gets the new status. Every other applicant is unchanged, and the list keeps its length. |
| Applicants.SetStatus | src/Components/Applicent.jsx:118-133 | Only the job with the matching `jobid` has its applicants rewritten. Every other job and the list length are unchanged. |
| Applicants.SetStatusIsolation | src/Components/Applicent.jsx:118-133 | After an update, an applicant's stored status is the new one exactly when both ids match. Otherwise it is the old status. |
| Applicants.SetStatusCommute | src/Components/Applicent.jsx:118-133 | Updates of two different (job, applicant) pairs give the same list in either order. |
| Applicants.SetStatusIdempotent | src/Components/Applicent.jsx:118-133 | Applying the same status update twice gives the same list as applying it once. |
| Applicants.LoadingKey | src/Components/Applicent.jsx:84 | The in-flight key is the job id, then '-', then the applicant id. |
| Applicants.LoadingKeyInjective | src/Components/Applicent.jsx:84 | When the job ids contain no '-', equal keys imply equal (job, applicant) pairs. |
| Applicants.LoadingKeyCollision | src/Components/Applicent.jsx:84 | With a '-' inside an id, the different pairs ("a-b","c") and ("a","b-c") share one key. |
| Applicants.BeginUpdate | src/Components/Applicent.jsx:84-86 | When a request starts, the pair's select is disabled and the error is cleared. Every other in-flight flag and the job list are untouched. |
| Applicants.FailureMessage | src/Components/Applicent.jsx:89-136 | There is no error exactly when there is a non-empty token and the response is ok. Otherwise the error is one of: the missing-token message; the server's non-empty `message`; `HTTP error! status: N`; or the thrown message or its fallback. |
| Applicants.FinishUpdate | src/Components/Applicent.jsx:110-138 | When the request ends, the pair's select is enabled again. The job list takes the new status only on success; on failure the list is unchanged and the error is set. Other flags are untouched. |
| Applicants.UpdateApplicationStatus | src/Components/Applicent.jsx:83-140 | The whole handler: the pair is in flight during the request and not after it. The end state is the successful update or the failure message. |
| Applicants.InFlightCollision | src/Components/Applicent.jsx:84-85 | Starting an update of ("a-b","c") also disables the select of ("a","b-c"). |
| Applicants.DisplayedStatus | src/Components/Applicent.jsx:325 | The shown status is never empty. It is the stored status when that is non-empty, and "pending" otherwise. |
| Applicants.StatusColor | src/Components/Applicent.jsx:154-162 | Each of hired/accepted/rejected/pending maps to its own colour, in both directions. Every other status, and a missing status, is "default". |
| Applicants.ChipAsWrittenMismatch | src/Components/Applicent.jsx:325-326 | As the page renders it, an applicant without a status gets a "pending" chip in "default" grey, not the "warning" colour of "pending". |
| Applicants.StatusChip | src/Components/Applicent.jsx:325-326 | Corrected chip: the colour is the colour of the shown caption. The chip agrees with the page whenever a status is set, and it is coloured exactly when its caption is one of the four known statuses. |
| EditJob.Initial | src/Components/EditJob.jsx:25-43 | The empty edit form: every list field is an empty array and every list box is empty. |
| EditJob.InputChange | src/Components/EditJob.jsx:92-94 | One field takes the new value and every other field keeps its value. The form stays editable when the field is not a list. |
| EditJob.ArrayInput | src/Components/EditJob.jsx:96-105 | Enter with a non-blank box appends the trimmed text to the list and empties the box. Any other key, or a blank box, changes nothing. |
| EditJob.DeleteItem | src/Components/EditJob.jsx:107-112 | The element at the index leaves the list and the rest keep their order. An index out of range changes nothing. |
| EditJob.LoadedHighlights | src/Components/EditJob.jsx:75 | The highlights are the first truthy value of `jobHighlights` and `highlights`, and `[]` when neither is truthy. |
| EditJob.EmptyJobHighlightsWin | src/Components/EditJob.jsx:75 | An empty `jobHighlights` array is truthy, so it wins over a non-empty `highlights`. |
| EditJob.Load | src/Components/EditJob.jsx:50-90 | Without a token, after a failed request, or with data that is nullish or has an unformattable deadline, the form is unchanged. Otherwise it holds the job's fields, the reformatted deadline and the chosen highlights. The boxes are kept. |
| EditJob.SubmitBody | src/Components/EditJob.jsx:126-129 | The PATCH body is every field of the form, plus `jobHighlights` equal to the form's `highlights`. |
| EditJob.SubmitRequest | src/Components/EditJob.jsx:114-130 | A request is issued exactly when there is a token, and it carries the PATCH body. |
| EditJob.LoadKeepsEditable | src/Components/EditJob.jsx:72-78 | After a load the page's three list renders (lines 277, 296, 315) can run exactly when the server sent `requirements` and `keySkills` as arrays and the highlights chain yields an array. |
| EditJob.SaveReloadRoundTrip | src/Components/EditJob.jsx:124-129 | Loading back the job the save sent gives the saved body: every form field unchanged plus the `jobHighlights` copy, when the highlights are an array and the deadline is a day the formatter keeps. |
| PostJob.BoxOf | src/Components/PostJob.jsx:42-46 | Every list field has its own text box, under a different key from the field. |
| PostJob.Initial | src/Components/PostJob.jsx:28-46 | The new form: every list is an empty array, so it is free of duplicates, and the three boxes are empty. |
| PostJob.InputChange | src/Components/PostJob.jsx:48-50 | One field takes the new value and every other field keeps its value. The boxes are untouched. |
| PostJob.AddItem | src/Components/PostJob.jsx:52-60 | The trimmed value is appended exactly when it is non-blank and not yet in the list; otherwise nothing changes. The box keeps its text. A duplicate-free form stays duplicate-free. |
| PostJob.RemoveItem | src/Components/PostJob.jsx:62-67 | Only the element at the index goes and the rest keep their order. An index out of range changes nothing. Duplicate freedom is kept. |
| PostJob.AddItemIdempotent | src/Components/PostJob.jsx:52-60 | Adding the same value twice gives the same form as adding it once. |
| PostJob.Step | src/Components/PostJob.jsx:48-67 | Any wired user action keeps every list field an array. |
| PostJob.Run | src/Components/PostJob.jsx:48-67 | Any sequence of wired actions keeps every list field an array. |
| PostJob.RunKeepsDuplicateFree | src/Components/PostJob.jsx:52-67 | No sequence of typing, adding and removing makes an entry appear twice in a list. |
| PostJob.InitialStaysDuplicateFree | src/Components/PostJob.jsx:28-67 | Starting from the new form, every reachable form has duplicate-free lists. |
| JobAlert.Initial | src/Components/JobPostingForm/JobAlertForm.js:70-79 | The alert form starts with no candidates, an empty e-mail box, no errors and four empty fields. |
| JobAlert.HandleChange | src/Components/JobPostingForm/JobAlertForm.js:90-99 | The named field takes the value and the others are kept. A set error of that field is blanked; otherwise the errors are unchanged. |
| JobAlert.CandidateError | src/Components/JobPostingForm/JobAlertForm.js:101-113 | The checks run in source order: required, then the pattern, then duplicates. There is no error exactly when the address matches the pattern and is not yet listed. |
| JobAlert.AddCandidate | src/Components/JobPostingForm/JobAlertForm.js:101-118 | On an error, only the `email` error changes. Otherwise the address is appended, the box is emptied, and the `email` and `candidates` errors are blanked. |
| JobAlert.RemoveCandidate | src/Components/JobPostingForm/JobAlertForm.js:120-122 | Every copy of the address leaves the roster, every other candidate stays in order with the length dropping by exactly the copies removed, and nothing else changes. |
| JobAlert.RosterPreserved | src/Components/JobPostingForm/JobAlertForm.js:90-122 | Adding, removing and typing keep the roster duplicate-free, with every address matching the pattern. |
| JobAlert.RosterAddresses | src/Components/JobPostingForm/JobAlertForm.js:86-88 | Every rostered address has no white space, exactly one '@' after a non-empty local part, and a '.' later in the domain. |
| JobAlert.ValidateForm | src/Components/JobPostingForm/JobAlertForm.js:124-133 | Each field has its error exactly when its check fails (blank title or description, missing level or end date, no candidates), with the source's message. There are no other keys. |
| JobAlert.ValidIffComplete | src/Components/JobPostingForm/JobAlertForm.js:124-133 | The form validates exactly when every field is filled in and there is at least one candidate. |
| JobAlert.FailureText | src/Components/JobPostingForm/JobAlertForm.js:175-200 | The failure text is one of: the server's non-empty `error` string; the generic text when that is falsy; the no-response text; or the setup error's message. |
| JobAlert.Submit | src/Components/JobPostingForm/JobAlertForm.js:136-204 | The errors are the validation result. A payload of the four fields and the roster is sent exactly when the form is complete. No snackbar shows without sending; after sending it shows success or the failure text. |
| EmailPatterns.StrictMatchIff | src/Components/JobPostingForm/JobAlertForm.js:86-88 | The anchored pattern accepts exactly the strings with no white space, exactly one '@' after a non-empty local part, and a '.' with characters on both sides after it. |
| EmailPatterns.LooseMatchIff | src/Components/SignforComapany.jsx:110 | The unanchored pattern accepts exactly the strings with an '@' and a later '.' that have non-white-space around them and between them. |
| EmailPatterns.StrictImpliesLoose | src/Components/SignupForStudent.jsx:81 | Every address the alert form accepts, the sign-up forms accept too. |
| EmailPatterns.LooseAcceptsMore | src/Components/SignupForStudent.jsx:81 | The sign-up pattern accepts "x a@b.c y", which the alert pattern refuses. |
| Signup.EmailError | src/Components/SignforComapany.jsx:108-112 | A blank address is "required". Otherwise, one that does not match the pattern is "invalid". There is no error exactly when the pattern matches. |
| Signup.ProfileErrors | src/Components/SignforComapany.jsx:118-132 | Each profile field has an error exactly when it is blank, with that field's message. |
| Signup.Validate | src/Components/SignforComapany.jsx:105-136 | Each key has an error exactly when its check fails: the e-mail pattern, an empty password, a blank profile field. Each error carries the source's message, and no other keys appear. |
| Signup.ValidIffComplete | src/Components/SignupForStudent.jsx:76-107 | Validation passes exactly when the e-mail matches, the password is non-empty and every profile field is non-blank. |
| Signup.Change | src/Components/SignforComapany.jsx:138-147 | A top-level name sets that top-level key. Any other name sets the key inside `profile`, and everything else stays. |
| Signup.ClearError | src/Components/SignforComapany.jsx:148-150 | A set error of the field is blanked and the others are kept. Without one, the errors are unchanged. |
| Signup.ChangeKeepsShape | src/Components/SignupForStudent.jsx:109-122 | Typing into any input except `profile` keeps every field a string. The role is kept unless the name is `role`. |
| Signup.LooseNotBlank | src/Components/SignforComapany.jsx:108-112 | An address the pattern accepts is never blank, so the two checks never disagree. |
| Signup.Submit | src/Components/SignforComapany.jsx:153-172 | The errors are the validation result. The form is sent exactly when it is valid. Success resets the form and shows the success message; a refusal shows the server message or the fallback. Nothing changes when nothing is sent. |
| CompanySignup.Initial | src/Components/SignforComapany.jsx:87-97 | The new form is well-shaped, has role "company" and empty profile fields. |
| CompanySignup.FieldsLayout | src/Components/SignforComapany.jsx:118-132 | The four company fields have distinct names, none of them a top-level key. |
| CompanySignup.HandleChange | src/Components/SignforComapany.jsx:138-151 | Typing routes the value and blanks that field's error. The message and success flag are untouched. |
| CompanySignup.InputsKeepShape | src/Components/SignforComapany.jsx:138-151 | Typing into a rendered input keeps the form well-shaped and the role "company". |
| CompanySignup.BlankCompanyNameRejected | src/Components/SignforComapany.jsx:118-120 | A white-space-only company name always draws its error. |
| CompanySignup.Submit | src/Components/SignforComapany.jsx:153-172 | The form is sent exactly when it is valid. Success resets the form to the initial one; a refusal keeps it. |
| CompanySignup.InitialNotSent | src/Components/SignforComapany.jsx:87-136 | The untouched form is never sent. |
| StudentSignup.FieldsLayout | src/Components/SignupForStudent.jsx:89-99 | The three student fields have distinct names, none of them a top-level key. |
| StudentSignup.Initial | src/Components/SignupForStudent.jsx:57-67 | The new form is well-shaped, has role "student", no skills and empty profile fields. |
| StudentSignup.SkillsError | src/Components/SignupForStudent.jsx:101-103 | The skills error is present exactly when the skill list is empty. |
| StudentSignup.Validate | src/Components/SignupForStudent.jsx:76-107 | The skills error is as above, and every other key has its error as in the shared check. The form is valid exactly when the shared check passes and there is a skill. |
| StudentSignup.HandleChange | src/Components/SignupForStudent.jsx:109-122 | Typing routes the value and blanks that field's error. The skill box, message and success flag are untouched. |
| StudentSignup.AddSkill | src/Components/SignupForStudent.jsx:124-138 | A blank box changes nothing. Otherwise the trimmed skill is appended, the box is emptied and the skills error is blanked. |
| StudentSignup.RemoveSkill | src/Components/SignupForStudent.jsx:140-148 | Every copy of the skill leaves the list, every other skill stays (the length drops by exactly the copies removed), the rest keep their order, and every other field and error is kept. |
| StudentSignup.AddSkillSatisfiesSkillsCheck | src/Components/SignupForStudent.jsx:101-103 | After adding a non-blank skill, the skills check passes. |
| StudentSignup.Submit | src/Components/SignupForStudent.jsx:150-172 | The form is sent exactly when it is valid and has a skill. Success resets the form; nothing changes when nothing is sent. |
| StudentSignup.Step | src/Components/SignupForStudent.jsx:109-148 | Every wired action keeps the form well-shaped. |
| StudentSignup.ChangeKeepsSkills | src/Components/SignupForStudent.jsx:109-122 | Typing into a rendered input never touches the skill list. |
| StudentSignup.RunKeepsRole | src/Components/SignupForStudent.jsx:109-148 | Any sequence of wired actions keeps the form well-shaped and the role "student". |
| StudentSignup.Fresh | src/Components/SignupForStudent.jsx:57-74 | The page starts well-shaped with role "student". |
| StudentSignup.SubmittedRoleIsStudent | src/Components/SignupForStudent.jsx:57-172 | Whatever the user does on the page, a registration it sends has role "student". |
| StudentProfile.Initial | src/Components/StudentUpdateForm.jsx:18-28 | The form starts with one education entry whose four fields are empty, one project whose text fields are empty and whose technologies are `[]`, three empty social links and no languages. |
| StudentProfile.MergeLinks | src/Components/StudentUpdateForm.jsx:53-56 | The social links are the union of the old and the server's. A server link wins over the old one, and the old ones stay otherwise. |
| StudentProfile.Load | src/Components/StudentUpdateForm.jsx:45-59 | Without a truthy profile nothing changes. Otherwise the server keys override the form. Education and projects are taken only when they have a length, the links are merged, and languages is the server array or `[]`. |
| StudentProfile.LoadIdempotent | src/Components/StudentUpdateForm.jsx:45-59 | Loading the same server answer twice gives the same form as loading it once. |
| StudentProfile.LoadShapes | src/Components/StudentUpdateForm.jsx:53-58 | After a load, the social links are an object and the languages an array, so rendering them cannot throw. |
| StudentProfile.InputChange | src/Components/StudentUpdateForm.jsx:80-82 | One field takes the value and every other field keeps its value. |
| StudentProfile.NestedInputChange | src/Components/StudentUpdateForm.jsx:84-93 | Only the entry at the index gets the field set. The other entries, the array length and every other key are kept. |
| StudentProfile.SocialLinksChange | src/Components/StudentUpdateForm.jsx:95-103 | Only the platform's link changes; the other links and keys are kept. |
| StudentProfile.LanguagesChange | src/Components/StudentUpdateForm.jsx:270-273 | The languages are the comma-separated pieces of the text, each trimmed. Nothing else changes. |
| StudentProfile.LanguagesRoundTrip | src/Components/StudentUpdateForm.jsx:270-273 | Typing back the displayed `join(', ')` text restores the languages, when each language is comma-free and trimmed. |
| StudentProfile.ClearedLanguages | src/Components/StudentUpdateForm.jsx:270-273 | An emptied box stores one empty language, not none. |
| StudentProfile.SubmitBody | src/Components/StudentUpdateForm.jsx:112 | The PATCH body is an object whose only key is `profile`, holding the form. |
| StudentProfile.SaveNotice | src/Components/StudentUpdateForm.jsx:115-121 | The success toast is shown exactly when the response is ok. |
| CompanyProfile.Initial | src/Components/CompanyUpdateForm.jsx:13-27 | The default form has every nested object and list the page reads. |
| CompanyProfile.Load | src/Components/CompanyUpdateForm.jsx:30-40 | As written: a failed request, or one with no body, keeps the form. Otherwise the form becomes the server's `profile` value, whatever it is. |
| CompanyProfile.LoadDropsDefaults | src/Components/CompanyUpdateForm.jsx:34 | Loading the profile a company has right after sign-up leaves a form the page cannot render. |
| CompanyProfile.LoadMerged | src/Components/CompanyUpdateForm.jsx:30-40 | Corrected load: the server profile is spread over the defaults. Every default key survives, the server keys win, and a failed request keeps the form. |
| CompanyProfile.LoadMergedRendered | src/Components/CompanyUpdateForm.jsx:97-216 | After the corrected load of a profile whose known keys have the right shapes, the page can render. |
| CompanyProfile.LoadMergedRegistered | src/Components/CompanyUpdateForm.jsx:34 | The corrected load renders the profile that the as-written load breaks on. |
| CompanyProfile.InputChange | src/Components/CompanyUpdateForm.jsx:42-44 | One field takes the value and every other field keeps its value. |
| CompanyProfile.NestedInputChange | src/Components/CompanyUpdateForm.jsx:46-48 | Only the inner field of the object under `key` changes; the other inner fields and outer keys are kept. |
| CompanyProfile.SocialLinkChange | src/Components/CompanyUpdateForm.jsx:127-141 | Only the platform's link changes; the other links and keys are kept. |
| CompanyProfile.SocialLinkIsNested | src/Components/CompanyUpdateForm.jsx:127-141 | The inline social-link handler has the same effect as the nested-field handler on `socialLinks`. |
| CompanyProfile.StockSymbolChange | src/Components/CompanyUpdateForm.jsx:163-198 | Only the exchange's symbol changes; the other company info, other symbols and outer keys are kept. |
| CompanyProfile.ServicesChange | src/Components/CompanyUpdateForm.jsx:96-100 | The main services are the comma-separated pieces of the text, each trimmed. Nothing else changes. |
| CompanyProfile.ServicesRoundTrip | src/Components/CompanyUpdateForm.jsx:96-100 | Typing back the displayed `join(', ')` text restores the services, when each service is comma-free and trimmed. |
| CompanyProfile.ClearedServices | src/Components/CompanyUpdateForm.jsx:96-100 | An emptied box stores one empty service, not none. |
| CompanyProfile.ReplaceKeepsRendered | src/Components/CompanyUpdateForm.jsx:97-216 | Replacing one rendered key by a value of the right shape keeps the form renderable. |
| CompanyProfile.InputKeepsRendered | src/Components/CompanyUpdateForm.jsx:66-92 | Editing a plain text field keeps the form renderable. |
| CompanyProfile.ServicesKeepRendered | src/Components/CompanyUpdateForm.jsx:96-100 | Editing the services keeps the form renderable. |
| CompanyProfile.NestedKeepsRendered | src/Components/CompanyUpdateForm.jsx:104-216 | Editing a headquarters, company-info or contact field keeps the form renderable. |
| CompanyProfile.SocialKeepsRendered | src/Components/CompanyUpdateForm.jsx:127-141 | Editing a social link keeps the form renderable. |
| CompanyProfile.StockKeepsRendered | src/Components/CompanyUpdateForm.jsx:163-198 | Editing a stock symbol keeps the form renderable. |
| CompanyProfile.SubmitBody | src/Components/CompanyUpdateForm.jsx:52 | The PATCH body is an object whose only key is `profile`, holding the form. |
| CompanyProfile.SaveNotice | src/Components/CompanyUpdateForm.jsx:50-57 | The success alert is shown exactly when the request succeeds. |
| FindJobs.Filtered | src/Components/FindJobs.jsx:52-56 | The shown jobs are the matching ones, in their original order, each as often as it occurs in the server list; non-matching jobs do not appear. |
| FindJobs.EmptyTermKeepsAll | src/Components/FindJobs.jsx:52-56 | An empty search shows every job. |
| FindJobs.FilteredIdempotent | src/Components/FindJobs.jsx:52-56 | Filtering the shown jobs again with the same term changes nothing. |
| FindJobs.MatchesNarrower | src/Components/FindJobs.jsx:52-56 | A job that matches a term also matches every substring of it. |
| FindJobs.NarrowingTerm | src/Components/FindJobs.jsx:52-56 | Extending the term narrows the results: filtering by the shorter term first, then the longer, is the same as filtering by the longer. |
| FindJobs.CaseOfTermIgnored | src/Components/FindJobs.jsx:52-56 | The search is case-insensitive in the term. |
| FindJobs.LowerIdempotent | src/Components/FindJobs.jsx:52-56 | Lower-casing twice is lower-casing once. |
| FindJobs.NoCompany | src/Components/FindJobs.jsx:54 | A job without a company matches by title or location only; the `?.` makes its company test false. |
| FindJobs.Render | src/Components/FindJobs.jsx:36-126 | The page shows a spinner while loading, the fixed message on failure, and otherwise the filtered cards. "No jobs found" shows exactly when no job matches. |
| JobCard.Truncate | src/Components/jobs/JobCard.jsx:137-139 | A description up to 150 characters is shown whole. A longer one shows its first 150 characters followed by "...". |
| JobCard.TruncateBounds | src/Components/jobs/JobCard.jsx:137-139 | The preview never exceeds 153 characters and keeps the first 150. |
| JobCard.TruncateIdempotent | src/Components/jobs/JobCard.jsx:137-139 | Truncating a preview again changes nothing. |
| JobList.Initial | src/Components/JobList.jsx:35-45 | The page starts loading, with no jobs, a closed dialog and no notification. |
| JobList.FetchJobs | src/Components/JobList.jsx:51-74 | Loading always ends. The jobs are replaced only by an ok response; dialog and notification are untouched. |
| JobList.OpenDialog | src/Components/JobList.jsx:147-149 | The delete button opens the dialog for that job id, leaving jobs and notification alone. |
| JobList.CloseDialog | src/Components/JobList.jsx:271-279 | Cancel closes the dialog and forgets the id, leaving the rest alone. |
| JobList.Without | src/Components/JobList.jsx:87 | The jobs with a different id remain, in order and with their multiplicity; no job with the id remains. |
| JobList.HandleDelete | src/Components/JobList.jsx:76-103 | The dialog always closes. On success the job leaves the list with a success note; on a non-ok response nothing else changes; on a throw the list is kept and an error note shows. |
| JobList.ConfirmRemovesOne | src/Components/JobList.jsx:147-149 | With unique ids, confirming the dialog for job k deletes exactly that one job. |
| JobList.DeleteTwice | src/Components/JobList.jsx:87 | Deleting the same id twice leaves the same list as once. |
| JobList.NullIdKeepsAll | src/Components/JobList.jsx:39 | Deleting with the dialog's initial `null` id removes nothing. |
| JobList.CloseNotification | src/Components/JobList.jsx:293-296 | Closing the notification hides it and keeps its text and kind. |
| JobList.Step | src/Components/JobList.jsx:271-296 | Each page action (open the dialog, cancel, confirm with `deleteDialog.jobId`, close the notification) keeps the list a subsequence of what it was. |
| JobList.RunKeepsListedFrom | src/Components/JobList.jsx:76-103 | No sequence of page actions adds a job: a list drawn in order from an answer stays drawn from it. |
| JobList.ListedFromLastAnswer | src/Components/JobList.jsx:66-68 | After an ok fetch, whatever the user does next, every listed job is one of that answer's jobs, in the answer's order. |
| JobDetails.CeilDays | src/Components/jobs/JobDetails.jsx:201 | The day count is the smallest whole number of days covering the time difference. |
| JobDetails.DaysUntilDeadline | src/Components/jobs/JobDetails.jsx:197-202 | There is a day count exactly when the deadline parses; it rounds the remaining time up to whole days. |
| JobDetails.DeadlinePassedIff | src/Components/jobs/JobDetails.jsx:197-202 | The day count is at most zero exactly when the deadline is not in the future. |
| JobDetails.Button | src/Components/jobs/JobDetails.jsx:349-364 | The button is disabled exactly while applying or once the deadline has passed. It shows a spinner while applying, "Application Deadline Passed" once the deadline has passed, and "Apply Now" exactly when enabled. |
| JobDetails.InvalidDeadlineStaysOpen | src/Components/jobs/JobDetails.jsx:349-364 | An unparsable deadline leaves the button enabled with "Apply Now". |
| JobDetails.Initial | src/Components/jobs/JobDetails.jsx:127-133 | The page starts loading, with no job, not applying and the snackbar closed. |
| JobDetails.LoadError | src/Components/jobs/JobDetails.jsx:152 | The load error is always truthy. It is the response's `message`, else the response data, else the fixed fallback. |
| JobDetails.Load | src/Components/jobs/JobDetails.jsx:141-162 | Without a job id nothing happens. Otherwise loading ends, and the job is set with the error cleared, or the job is kept and the error is set. |
| JobDetails.Render | src/Components/jobs/JobDetails.jsx:205-230 | Spinner exactly while loading, error page exactly when loaded with a truthy error. Once loaded without an error, the details show exactly when the job is truthy, with the button for its deadline. |
| JobDetails.NoJobIdKeepsLoading | src/Components/jobs/JobDetails.jsx:159-161 | Without a job id the page keeps its spinner. |
| JobDetails.FailedLoadShowsError | src/Components/jobs/JobDetails.jsx:150-155 | A failed load always shows the error page. |
| JobDetails.ShowToast | src/Components/jobs/JobDetails.jsx:135-139 | The snackbar opens with the message and severity; nothing else changes. |
| JobDetails.BeginApply | src/Components/jobs/JobDetails.jsx:165 | Applying starts with the button's loading flag on. |
| JobDetails.ApplyError | src/Components/jobs/JobDetails.jsx:175-178 | The apply error is always truthy. It is the response's `message`, else the response data, else the error's message, else the fallback. |
| JobDetails.FinishApply | src/Components/jobs/JobDetails.jsx:164-183 | Applying always ends with the snackbar open. On success it has the server message or "Applied successfully"; on failure it has the apply error with severity "error". |
| JobDetails.ApplyDisablesButton | src/Components/jobs/JobDetails.jsx:164-183 | The button is disabled while applying, and afterwards exactly when the deadline has passed. |
| JobDetails.SnackbarClose | src/Components/jobs/JobDetails.jsx:185-190 | A click-away changes nothing. Any other close hides the snackbar and keeps its text. |
| Lists.Filter | src/Components/JobList.jsx:87 | `filter` keeps every passing element as many times as it occurs, and no failing one. |
| Lists.FilterIsSubseq | src/Components/JobList.jsx:87 | The filtered list keeps the original order. |
| Lists.SubseqTrans | src/Components/JobList.jsx:87 | Filtering a filtered list still keeps the order of the original one. |
| Lists.SubseqMembers | src/Components/JobList.jsx:87 | A list drawn in order from another holds only that list's elements. |
| Lists.RemoveAll | src/Components/JobPostingForm/JobAlertForm.js:121 | Removing a value removes every copy, keeps every other element, and shortens the list by the number of copies. |
| Lists.RemoveAllIsFilter | src/Components/SignupForStudent.jsx:145 | Removal by value is the `!==` filter of the source and keeps the order. |
| Lists.RemoveAt | src/Components/PostJob.jsx:62-66 | The index filter removes exactly the element at an in-range index and nothing otherwise. |
| Lists.NoDupRemoveAll | src/Components/JobPostingForm/JobAlertForm.js:121 | Removing a value keeps a duplicate-free list duplicate-free. |
| Lists.NoDupRemoveAt | src/Components/PostJob.jsx:62-66 | Removing by index keeps a duplicate-free list duplicate-free. |
| Text.Trim | src/Components/JobPostingForm/JobAlertForm.js:126 | The trimmed text neither starts nor ends with white space, and it is empty exactly when the text is all white space. |
| Text.TrimIsSlice | src/Components/SignupForStudent.jsx:130 | The trimmed text is a slice of the original with only white space cut away at both ends. |
| Text.Lower | src/Components/FindJobs.jsx:53 | Lower-casing keeps the length and maps each character. |
| Text.ContainsLower | src/Components/FindJobs.jsx:53-55 | A substring stays a substring once both sides are lower-cased. |
| Text.JoinSplit | src/Components/StudentUpdateForm.jsx:272 | Joining the comma pieces back with commas restores the text. |
| Text.SplitJoin | src/Components/StudentUpdateForm.jsx:272 | Splitting a join of comma-free pieces gives the pieces back. |
| Text.SplitTrim | src/Components/StudentUpdateForm.jsx:272 | There is one trimmed, comma-free entry per comma-separated piece. |
| Text.SplitTrimJoin | src/Components/StudentUpdateForm.jsx:270-272 | Parsing the `join(', ')` text of tidy entries gives the entries back. |
| Text.Decimal | src/Components/Applicent.jsx:113 | The printed status code is a non-empty run of digits that denotes the number, with a leading zero only for zero itself. |
| Js.Put | src/Components/PostJob.jsx:49 | `{...o, [k]: v}` sets `k` to `v` and keeps every other property. |

## Left out

- HTTP, `fetch`/`axios`, `localStorage`/`sessionStorage` and the clock are parameters: the request outcome, the token, the current time.
- URLs and headers are not modelled, including the malformed `http://https://` URL at `src/Components/EditJob.jsx:58`.
- Date parsing and formatting (`new Date`, `toISOString`, `toLocaleDateString`, `formatDate`) are parameters or left out. An unparsable date is `None`.
- React scheduling, `setTimeout`, navigation, toasts and `alert` are left out. Each handler's state updates are applied together.
- The applicants page's job fetch and its loading state are left out. The status update gets the job list as input.
- The alert form's reset two seconds after a successful send is left out, because it is a timer callback.
- JavaScript prototype behaviour is left out: inherited properties seen by `in` or by a lookup such as `statusColors["toString"]`, and the index keys a spread string or array produces.
- Unicode white space and case mapping are left out. Only ASCII white space and letters are handled.
- JobCard.Truncate: counts Unicode code points, where `length` and `substring` count UTF-16 code units. A description with characters outside the Basic Multilingual Plane is cut at a different place, and the source can split a surrogate pair, which a Dafny string cannot hold.
- JobCard: the skill chips and the posted and deadline dates are presentation and are left out. Only the description preview is modelled.
- `UpdateProfile.jsx`, `SignUpPage.jsx`, the dashboard, header, footer, home and not-found pages are presentation or routing only and are left out.
- Server data is assumed to have the types the pages read, such as job titles and locations as strings. A malformed record, which would throw in the source, is not modelled.
- JobAlert.FailureText: a truthy server `error` that is not a string is shown as the fixed text "[object]", not as JavaScript's string conversion.
- Applicants.FailureMessage: a non-empty server `message` is modelled as a string. A non-string `message` is left out.
- StudentSignup.Run: stops at the first action whose name no input renders. The source's `profile` input does not exist, so such a run cannot happen.
- PostJob.Run: only the actions the form wires up are modelled: its own field names and list fields.

## Findings

| source | as written | input that shows it | evidently intended | confidence | as-written member | corrected member |
|---|---|---|---|---|---|---|
| src/Components/Applicent.jsx:325-326 | The chip's caption falls back to "pending", but its colour is looked up from the raw status | An applicant with no `status`: the chip reads "pending" but is coloured "default" instead of the "warning" of a pending chip | The colour follows the shown caption | medium; not executed | Applicants.ChipAsWrittenMismatch | Applicants.StatusChip |
| src/Components/CompanyUpdateForm.jsx:34 | The load replaces the form state with the server profile | A company just after sign-up has the profile `{companyName, industry, location, website}`. After the load `mainServices` is undefined and the render at line 97 calls `join` on it | The server profile is spread over the defaults, so every key the page reads exists | low (depends on what the server stores for new companies); not executed | CompanyProfile.LoadDropsDefaults | CompanyProfile.LoadMergedRendered |
