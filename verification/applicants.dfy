/** The company's applicant review page: the in-place status update of one
    applicant, the per-(job, applicant) "update in flight" flags keyed by a
    concatenated string, and the status chip shown for each applicant. */
module Applicants {
  import opened Options
  import opened Js
  import Text
  import opened Storage

  /** An applicant as listed under a job. `details` holds the other fields
      the server sends (name, education, links), carried through unchanged. */
  datatype Applicant = Applicant(studentid: string, status: Option<string>, details: Props)

  /** One job with its applicants, as returned by the applicants endpoint. */
  datatype JobEntry = JobEntry(jobid: string, applicants: seq<Applicant>, details: Props)

  /** The applicant list of one job after `studentid == applicantId` gets
      the new status. */
  function SetInJob(apps: seq<Applicant>, applicantId: string, newStatus: string): (r: seq<Applicant>)
    ensures |r| == |apps|
    ensures forall k :: 0 <= k < |apps| && apps[k].studentid == applicantId ==>
      r[k] == apps[k].(status := Some(newStatus))
    ensures forall k :: 0 <= k < |apps| && apps[k].studentid != applicantId ==> r[k] == apps[k]
    decreases |apps|
  {
    if apps == [] then []
    else
      var head := if apps[0].studentid == applicantId then apps[0].(status := Some(newStatus)) else apps[0];
      [head] + SetInJob(apps[1..], applicantId, newStatus)
  }

  /** The `setJobsData` updater run after a successful status request: in the
      job whose `jobid == jobId`, every applicant whose `studentid ==
      applicantId` gets `status = newStatus` and keeps its other fields;
      every other job and applicant is returned as it was, and the number
      and order of jobs and applicants are kept. */
  function SetStatus(jobs: seq<JobEntry>, jobId: string, applicantId: string, newStatus: string): (r: seq<JobEntry>)
    ensures |r| == |jobs|
    ensures forall i :: 0 <= i < |jobs| && jobs[i].jobid != jobId ==> r[i] == jobs[i]
    ensures forall i :: 0 <= i < |jobs| && jobs[i].jobid == jobId ==>
      r[i] == jobs[i].(applicants := SetInJob(jobs[i].applicants, applicantId, newStatus))
    decreases |jobs|
  {
    if jobs == [] then []
    else
      var head := if jobs[0].jobid == jobId
        then jobs[0].(applicants := SetInJob(jobs[0].applicants, applicantId, newStatus))
        else jobs[0];
      [head] + SetStatus(jobs[1..], jobId, applicantId, newStatus)
  }

  /** The stored status of applicant `k` of job `i`. */
  function StatusAt(jobs: seq<JobEntry>, i: int, k: int): Option<string>
    requires 0 <= i < |jobs| && 0 <= k < |jobs[i].applicants|
  {
    jobs[i].applicants[k].status
  }

  /** Updating the pair (jobId, applicantId) sets exactly the statuses of that
      pair and leaves the status, identity and other fields of every other
      (job, applicant) pair as they were. */
  lemma SetStatusIsolation(jobs: seq<JobEntry>, jobId: string, applicantId: string, newStatus: string)
    ensures var r := SetStatus(jobs, jobId, applicantId, newStatus);
      |r| == |jobs| &&
      forall i :: 0 <= i < |jobs| ==>
        r[i].jobid == jobs[i].jobid && r[i].details == jobs[i].details &&
        |r[i].applicants| == |jobs[i].applicants| &&
        forall k :: 0 <= k < |jobs[i].applicants| ==>
          r[i].applicants[k].studentid == jobs[i].applicants[k].studentid &&
          r[i].applicants[k].details == jobs[i].applicants[k].details &&
          StatusAt(r, i, k) ==
            if jobs[i].jobid == jobId && jobs[i].applicants[k].studentid == applicantId
            then Some(newStatus) else StatusAt(jobs, i, k)
  {
  }

  /** Two updates of different pairs do not interfere: applying them in
      either order gives the same jobs. */
  lemma SetStatusCommute(jobs: seq<JobEntry>, j1: string, a1: string, s1: string, j2: string, a2: string, s2: string)
    requires (j1, a1) != (j2, a2)
    ensures SetStatus(SetStatus(jobs, j1, a1, s1), j2, a2, s2) == SetStatus(SetStatus(jobs, j2, a2, s2), j1, a1, s1)
  {
    var x := SetStatus(SetStatus(jobs, j1, a1, s1), j2, a2, s2);
    var y := SetStatus(SetStatus(jobs, j2, a2, s2), j1, a1, s1);
    forall i | 0 <= i < |jobs|
      ensures x[i] == y[i]
    {
      if jobs[i].jobid == j1 && jobs[i].jobid == j2 {
        SetInJobCommute(jobs[i].applicants, a1, s1, a2, s2);
      }
    }
  }

  /** Within one job, updates of two different applicants commute. */
  lemma SetInJobCommute(apps: seq<Applicant>, a1: string, s1: string, a2: string, s2: string)
    requires a1 != a2
    ensures SetInJob(SetInJob(apps, a1, s1), a2, s2) == SetInJob(SetInJob(apps, a2, s2), a1, s1)
  {
    var p := SetInJob(SetInJob(apps, a1, s1), a2, s2);
    var q := SetInJob(SetInJob(apps, a2, s2), a1, s1);
    assert forall k :: 0 <= k < |apps| ==> p[k] == q[k];
  }

  /** Repeating the same update changes nothing more. */
  lemma SetStatusIdempotent(jobs: seq<JobEntry>, jobId: string, applicantId: string, newStatus: string)
    ensures var once := SetStatus(jobs, jobId, applicantId, newStatus);
      SetStatus(once, jobId, applicantId, newStatus) == once
  {
    var once := SetStatus(jobs, jobId, applicantId, newStatus);
    var twice := SetStatus(once, jobId, applicantId, newStatus);
    forall i | 0 <= i < |jobs|
      ensures twice[i] == once[i]
    {
      if jobs[i].jobid == jobId {
        var apps := once[i].applicants;
        assert SetInJob(apps, applicantId, newStatus) == apps;
      }
    }
  }

  /** `${jobId}-${applicantId}`: the key of the in-flight flag. */
  function LoadingKey(jobId: string, applicantId: string): (r: string)
    ensures |r| == |jobId| + 1 + |applicantId|
    ensures r[..|jobId|] == jobId && r[|jobId|] == '-' && r[|jobId| + 1..] == applicantId
  {
    jobId + "-" + applicantId
  }

  /** Ids with no '-' give distinct pairs distinct keys. */
  lemma LoadingKeyInjective(j1: string, a1: string, j2: string, a2: string)
    requires '-' !in j1 && '-' !in j2
    requires LoadingKey(j1, a1) == LoadingKey(j2, a2)
    ensures j1 == j2 && a1 == a2
  {
    var key := LoadingKey(j1, a1);
    assert key[|j1|] == '-' && key[|j2|] == '-';
    assert forall k :: 0 <= k < |j1| ==> key[k] == j1[k] && j1[k] != '-';
    assert forall k :: 0 <= k < |j2| ==> key[k] == j2[k] && j2[k] != '-';
    assert |j1| == |j2|;
    assert j1 == key[..|j1|] == j2;
  }

  /** With a '-' inside an id, two different pairs share one key. */
  lemma LoadingKeyCollision()
    ensures ("a-b", "c") != ("a", "b-c") && LoadingKey("a-b", "c") == LoadingKey("a", "b-c")
  {
    assert LoadingKey("a-b", "c") == "a-b-c" == LoadingKey("a", "b-c");
  }

  /** How a status request ended: the response was ok, it was not ok (with
      the HTTP status and the `message` of its JSON body, "" when absent), or
      the request or body decoding threw. */
  datatype Outcome = Ok | NotOk(httpStatus: nat, serverMessage: string) | Thrown(message: string)

  /** The page state this handler touches. */
  datatype Board = Board(jobs: seq<JobEntry>, statusLoading: map<string, bool>, error: Option<string>)

  /** Whether the status select of a pair is disabled. */
  predicate InFlight(b: Board, jobId: string, applicantId: string) {
    var key := LoadingKey(jobId, applicantId);
    key in b.statusLoading && b.statusLoading[key]
  }

  /** The state right after `updateApplicationStatus` starts, before the
      request resolves: the pair's flag is on and the error is cleared. */
  function BeginUpdate(b: Board, jobId: string, applicantId: string): (r: Board)
    ensures InFlight(r, jobId, applicantId)
    ensures r.jobs == b.jobs && r.error == None
    ensures forall key :: key in b.statusLoading && key != LoadingKey(jobId, applicantId) ==>
      key in r.statusLoading && r.statusLoading[key] == b.statusLoading[key]
    ensures r.statusLoading.Keys == b.statusLoading.Keys + {LoadingKey(jobId, applicantId)}
  {
    b.(statusLoading := b.statusLoading[LoadingKey(jobId, applicantId) := true], error := None)
  }

  /** The message `setError` receives when the update fails, or None on success. */
  function FailureMessage(token: Option<string>, outcome: Outcome): (r: Option<string>)
    ensures r == None <==> HasToken(token) && outcome.Ok?
    ensures !HasToken(token) ==> r == Some("Authentication token not found")
    ensures HasToken(token) && outcome.NotOk? && outcome.serverMessage != "" ==> r == Some(outcome.serverMessage)
    ensures HasToken(token) && outcome.NotOk? && outcome.serverMessage == "" ==>
      r == Some("HTTP error! status: " + Text.Decimal(outcome.httpStatus))
    ensures HasToken(token) && outcome.Thrown? ==>
      r == Some(if outcome.message != "" then outcome.message else "Failed to update application status")
  {
    if !HasToken(token) then Some("Authentication token not found")
    else match outcome
      case Ok => None
      case NotOk(httpStatus, serverMessage) =>
        Some(if serverMessage != "" then serverMessage else "HTTP error! status: " + Text.Decimal(httpStatus))
      case Thrown(message) =>
        Some(if message != "" then message else "Failed to update application status")
  }

  /** The state once the request has resolved (the `finally` block has run). */
  function FinishUpdate(b: Board, jobId: string, applicantId: string, newStatus: string,
                        token: Option<string>, outcome: Outcome): (r: Board)
    ensures !InFlight(r, jobId, applicantId)
    ensures forall key :: key in b.statusLoading && key != LoadingKey(jobId, applicantId) ==>
      key in r.statusLoading && r.statusLoading[key] == b.statusLoading[key]
    ensures r.statusLoading.Keys == b.statusLoading.Keys + {LoadingKey(jobId, applicantId)}
    ensures HasToken(token) && outcome.Ok? ==>
      r.jobs == SetStatus(b.jobs, jobId, applicantId, newStatus) && r.error == b.error
    ensures !(HasToken(token) && outcome.Ok?) ==>
      r.jobs == b.jobs && r.error == FailureMessage(token, outcome) && r.error.Some?
  {
    var loading := b.statusLoading[LoadingKey(jobId, applicantId) := false];
    match FailureMessage(token, outcome)
    case None => b.(jobs := SetStatus(b.jobs, jobId, applicantId, newStatus), statusLoading := loading)
    case Some(message) => b.(statusLoading := loading, error := Some(message))
  }

  /** `updateApplicationStatus` from start to finish. The pair's control is
      disabled while the request is outstanding and enabled again afterwards
      whatever the outcome; no other flag changes; the jobs change only on
      success, and then exactly as `SetStatus` says. */
  lemma UpdateApplicationStatus(b: Board, jobId: string, applicantId: string, newStatus: string,
                                token: Option<string>, outcome: Outcome)
    ensures var mid := BeginUpdate(b, jobId, applicantId);
      var done := FinishUpdate(mid, jobId, applicantId, newStatus, token, outcome);
      InFlight(mid, jobId, applicantId) && !InFlight(done, jobId, applicantId) &&
      (forall key :: key in b.statusLoading && key != LoadingKey(jobId, applicantId) ==>
        key in done.statusLoading && done.statusLoading[key] == b.statusLoading[key]) &&
      (HasToken(token) && outcome.Ok? ==>
        done.jobs == SetStatus(b.jobs, jobId, applicantId, newStatus) && done.error == None) &&
      (!(HasToken(token) && outcome.Ok?) ==> done.jobs == b.jobs && done.error.Some?)
  {
  }

  /** Because the key is a concatenation, an update of ("a-b", "c") disables
      the control of the different pair ("a", "b-c") too. */
  lemma InFlightCollision(b: Board)
    ensures InFlight(BeginUpdate(b, "a-b", "c"), "a", "b-c")
  {
    LoadingKeyCollision();
  }

  /** `applicant.status || "pending"`: the label and select value shown. */
  function DisplayedStatus(status: Option<string>): (r: string)
    ensures r != ""
    ensures status.Some? && status.value != "" ==> r == status.value
    ensures status == None || status == Some("") ==> r == "pending"
  {
    if status.Some? && status.value != "" then status.value else "pending"
  }

  /** `getStatusColor`: the chip colour for a status; anything outside the
      four known statuses, including a missing one, is "default". */
  function StatusColor(status: Option<string>): (r: string)
    ensures status == Some("hired") <==> r == "success"
    ensures status == Some("accepted") <==> r == "primary"
    ensures status == Some("rejected") <==> r == "error"
    ensures status == Some("pending") <==> r == "warning"
    ensures !(status.Some? && status.value in {"hired", "accepted", "rejected", "pending"}) <==> r == "default"
  {
    if status == Some("hired") then "success"
    else if status == Some("accepted") then "primary"
    else if status == Some("rejected") then "error"
    else if status == Some("pending") then "warning"
    else "default"
  }

  datatype Chip = Chip(caption: string, color: string)

  /** The chip as the page renders it: the label falls back to "pending" but
      the colour is looked up from the raw status. */
  function ChipAsWritten(status: Option<string>): Chip {
    Chip(DisplayedStatus(status), StatusColor(status))
  }

  /** An applicant with no status is shown as "pending" in the default grey,
      not in the colour the table gives "pending". */
  lemma ChipAsWrittenMismatch()
    ensures ChipAsWritten(None).caption == "pending"
    ensures ChipAsWritten(None).color == "default" != StatusColor(Some("pending"))
  {
  }

  /** The chip with its colour taken from the status it shows. */
  function StatusChip(status: Option<string>): (r: Chip)
    ensures r.caption == DisplayedStatus(status)
    ensures r.color == StatusColor(Some(r.caption))
    ensures status.Some? && status.value != "" ==> r == ChipAsWritten(status)
    ensures r.color != "default" <==> r.caption in {"hired", "accepted", "rejected", "pending"}
  {
    var shown := DisplayedStatus(status);
    Chip(shown, StatusColor(Some(shown)))
  }
}
