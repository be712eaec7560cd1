/** The company's own job list: loaded once, with a confirmation dialog
    before a job is deleted and a notification after. */
module JobList {
  import opened Options
  import opened Js
  import Lists

  /** A listed job: its `_id` and the rest of what the server sent. */
  datatype ListedJob = ListedJob(id: string, details: Props)

  /** `deleteDialog`: open or not, and the job it asks about. */
  datatype Dialog = Dialog(open: bool, jobId: Option<string>)

  /** `notification`: the snackbar's state. `kind` is the source's `type`. */
  datatype Notification = Notification(open: bool, message: string, kind: string)

  datatype ListState = ListState(jobs: seq<ListedJob>, loading: bool, dialog: Dialog, notification: Notification)

  function Initial(): (r: ListState)
    ensures r.jobs == [] && r.loading && !r.dialog.open && !r.notification.open
  {
    ListState([], true, Dialog(false, None), Notification(false, "", "success"))
  }

  /** How the fetch of the company's jobs ended: an answer with its `ok`
      flag and body, or a thrown error. */
  datatype ListFetch = Answered(ok: bool, data: seq<ListedJob>) | FetchThrown

  /** `fetchJobs`: an `ok` answer replaces the list; anything else keeps
      it; loading ends either way. */
  function FetchJobs(s: ListState, outcome: ListFetch): (r: ListState)
    ensures !r.loading && r.dialog == s.dialog && r.notification == s.notification
    ensures outcome.Answered? && outcome.ok ==> r.jobs == outcome.data
    ensures !(outcome.Answered? && outcome.ok) ==> r.jobs == s.jobs
  {
    var jobs := if outcome.Answered? && outcome.ok then outcome.data else s.jobs;
    s.(jobs := jobs, loading := false)
  }

  /** The delete button of a card asks about that card's job. */
  function OpenDialog(s: ListState, jobId: string): (r: ListState)
    ensures r.dialog == Dialog(true, Some(jobId)) && r.jobs == s.jobs && r.notification == s.notification
  {
    s.(dialog := Dialog(true, Some(jobId)))
  }

  /** Cancel, or closing the dialog, forgets the job. */
  function CloseDialog(s: ListState): (r: ListState)
    ensures r.dialog == Dialog(false, None) && r.jobs == s.jobs && r.notification == s.notification
  {
    s.(dialog := Dialog(false, None))
  }

  /** How the DELETE request ended. */
  datatype DeleteOutcome = Deleted | NotDeleted | DeleteThrown

  /** The jobs other than `jobId`; a `null` id matches none of them. */
  function Without(jobs: seq<ListedJob>, jobId: Option<string>): (r: seq<ListedJob>)
    ensures Lists.IsSubseq(r, jobs)
    ensures forall i :: 0 <= i < |r| ==> Some(r[i].id) != jobId
    ensures forall i :: 0 <= i < |jobs| && Some(jobs[i].id) != jobId ==> jobs[i] in r
    ensures forall job | job in jobs :: multiset(r)[job] == if Some(job.id) != jobId then multiset(jobs)[job] else 0
  {
    Lists.FilterIsSubseq(jobs, (j: ListedJob) => Some(j.id) != jobId);
    Lists.Filter(jobs, (j: ListedJob) => Some(j.id) != jobId)
  }

  /** `handleDelete`: a successful deletion drops the job from the list and
      reports it; a refused one changes nothing; a thrown error reports the
      failure. The dialog is closed in every case. */
  function HandleDelete(s: ListState, jobId: Option<string>, outcome: DeleteOutcome): (r: ListState)
    ensures r.dialog == Dialog(false, None) && r.loading == s.loading
    ensures outcome.Deleted? ==>
      r.jobs == Without(s.jobs, jobId) && r.notification == Notification(true, "Job deleted successfully!", "success")
    ensures outcome.NotDeleted? ==> r.jobs == s.jobs && r.notification == s.notification
    ensures outcome.DeleteThrown? ==>
      r.jobs == s.jobs && r.notification == Notification(true, "Failed to delete job", "error")
  {
    var s' := match outcome
      case Deleted => s.(jobs := Without(s.jobs, jobId), notification := Notification(true, "Job deleted successfully!", "success"))
      case NotDeleted => s
      case DeleteThrown => s.(notification := Notification(true, "Failed to delete job", "error"));
    s'.(dialog := Dialog(false, None))
  }

  /** Job ids are distinct. */
  predicate UniqueIds(jobs: seq<ListedJob>) {
    forall i, j :: 0 <= i < j < |jobs| ==> jobs[i].id != jobs[j].id
  }

  /** Confirming the dialog opened on the job at index `k` removes exactly
      that job, when ids are distinct. */
  lemma ConfirmRemovesOne(s: ListState, k: int)
    requires UniqueIds(s.jobs) && 0 <= k < |s.jobs|
    ensures var r := HandleDelete(OpenDialog(s, s.jobs[k].id), OpenDialog(s, s.jobs[k].id).dialog.jobId, Deleted);
      r.jobs == s.jobs[..k] + s.jobs[k + 1..] && |r.jobs| == |s.jobs| - 1
  {
    Lists.FilterDropsOne(s.jobs, (j: ListedJob) => Some(j.id) != Some(s.jobs[k].id), k);
  }

  /** Deleting the same job again removes nothing more. */
  lemma DeleteTwice(s: ListState, jobId: Option<string>)
    ensures Without(Without(s.jobs, jobId), jobId) == Without(s.jobs, jobId)
  {
    Lists.FilterIdempotent(s.jobs, (j: ListedJob) => Some(j.id) != jobId);
  }

  /** A closed dialog has no job, so confirming from it deletes nothing. */
  lemma NullIdKeepsAll(jobs: seq<ListedJob>)
    ensures Without(jobs, None) == jobs
  {
    Lists.FilterAll(jobs, (j: ListedJob) => Some(j.id) != None);
  }

  /** What the user can do on the loaded page: open the dialog from a card,
      cancel it, confirm it (the DELETE request ending as given), or close
      the notification. */
  datatype PageAction = AskDelete(jobId: string) | Cancel | Confirm(outcome: DeleteOutcome) | HideNotification

  /** One action. Confirming deletes the job the dialog holds. */
  function Step(s: ListState, a: PageAction): (r: ListState)
    ensures Lists.IsSubseq(r.jobs, s.jobs)
  {
    Lists.SubseqRefl(s.jobs);
    match a
    case AskDelete(id) => OpenDialog(s, id)
    case Cancel => CloseDialog(s)
    case Confirm(outcome) => HandleDelete(s, s.dialog.jobId, outcome)
    case HideNotification => CloseNotification(s)
  }

  function Run(s: ListState, actions: seq<PageAction>): ListState
    decreases |actions|
  {
    if actions == [] then s else Run(Step(s, actions[0]), actions[1..])
  }

  /** The jobs listed are, in order, some of the jobs of `data`. */
  predicate ListedFrom(jobs: seq<ListedJob>, data: seq<ListedJob>) {
    Lists.IsSubseq(jobs, data)
  }

  /** No action of the page adds a job: the list stays drawn from `data`. */
  lemma {:induction false} RunKeepsListedFrom(s: ListState, actions: seq<PageAction>, data: seq<ListedJob>)
    requires ListedFrom(s.jobs, data)
    ensures ListedFrom(Run(s, actions).jobs, data)
    decreases |actions|
  {
    if actions != [] {
      var next := Step(s, actions[0]);
      Lists.SubseqTrans(next.jobs, s.jobs, data);
      RunKeepsListedFrom(next, actions[1..], data);
    }
  }

  /** After an ok fetch, whatever the user does, every job the page lists
      came from that answer, in the answer's order. */
  lemma ListedFromLastAnswer(s: ListState, data: seq<ListedJob>, actions: seq<PageAction>)
    ensures ListedFrom(Run(FetchJobs(s, Answered(true, data)), actions).jobs, data)
    ensures forall i :: 0 <= i < |Run(FetchJobs(s, Answered(true, data)), actions).jobs| ==>
      Run(FetchJobs(s, Answered(true, data)), actions).jobs[i] in data
  {
    var loaded := FetchJobs(s, Answered(true, data));
    Lists.SubseqRefl(data);
    RunKeepsListedFrom(loaded, actions, data);
    Lists.SubseqMembers(Run(loaded, actions).jobs, data);
  }

  /** Closing the snackbar hides it and keeps its text and kind. */
  function CloseNotification(s: ListState): (r: ListState)
    ensures !r.notification.open
    ensures r.notification.message == s.notification.message && r.notification.kind == s.notification.kind
    ensures r.jobs == s.jobs && r.dialog == s.dialog
  {
    s.(notification := s.notification.(open := false))
  }
}
