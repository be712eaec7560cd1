/** The job search page: every posted job, narrowed by a search term that
    must occur, ignoring case, in the title, the company or the location. */
module FindJobs {
  import opened Options
  import opened Js
  import Text
  import Lists

  /** A job as the list shows it; `company` may be absent. */
  datatype Job = Job(id: string, title: string, company: Option<string>, location: string, details: Props)

  /** The filter callback: `term` occurs, ignoring ASCII case, in the title,
      in the company when there is one, or in the location. */
  predicate Matches(job: Job, term: string) {
    var t := Text.Lower(term);
    Text.Contains(Text.Lower(job.title), t) ||
    (job.company.Some? && Text.Contains(Text.Lower(job.company.value), t)) ||
    Text.Contains(Text.Lower(job.location), t)
  }

  /** `filteredJobs`: the matching jobs, in the order the server sent them. */
  function Filtered(jobs: seq<Job>, term: string): (r: seq<Job>)
    ensures Lists.IsSubseq(r, jobs)
    ensures forall i :: 0 <= i < |r| ==> Matches(r[i], term)
    ensures forall i :: 0 <= i < |jobs| && Matches(jobs[i], term) ==> jobs[i] in r
    ensures forall job | job in jobs :: multiset(r)[job] == if Matches(job, term) then multiset(jobs)[job] else 0
  {
    Lists.FilterIsSubseq(jobs, j => Matches(j, term));
    Lists.Filter(jobs, j => Matches(j, term))
  }

  /** An empty search shows every job. */
  lemma EmptyTermKeepsAll(jobs: seq<Job>)
    ensures Filtered(jobs, "") == jobs
  {
    forall i | 0 <= i < |jobs|
      ensures Matches(jobs[i], "")
    {
      Text.ContainsEmpty(Text.Lower(jobs[i].title));
    }
    Lists.FilterAll(jobs, j => Matches(j, ""));
  }

  /** Searching the result again with the same term changes nothing. */
  lemma FilteredIdempotent(jobs: seq<Job>, term: string)
    ensures Filtered(Filtered(jobs, term), term) == Filtered(jobs, term)
  {
    Lists.FilterIdempotent(jobs, j => Matches(j, term));
  }

  /** A job matching a longer term matches every term inside it. */
  lemma MatchesNarrower(job: Job, term: string, longer: string)
    requires Text.Contains(longer, term) && Matches(job, longer)
    ensures Matches(job, term)
  {
    Text.ContainsLower(longer, term);
    var t, t' := Text.Lower(term), Text.Lower(longer);
    if Text.Contains(Text.Lower(job.title), t') {
      Text.ContainsTransitive(Text.Lower(job.title), t', t);
    } else if job.company.Some? && Text.Contains(Text.Lower(job.company.value), t') {
      Text.ContainsTransitive(Text.Lower(job.company.value), t', t);
    } else {
      Text.ContainsTransitive(Text.Lower(job.location), t', t);
    }
  }

  /** Typing more of a term only narrows the list: the result for the
      longer term is the result for the shorter one, narrowed again. */
  lemma NarrowingTerm(jobs: seq<Job>, term: string, longer: string)
    requires Text.Contains(longer, term)
    ensures Filtered(Filtered(jobs, term), longer) == Filtered(jobs, longer)
  {
    forall job | Matches(job, longer)
      ensures Matches(job, term)
    {
      MatchesNarrower(job, term, longer);
    }
    Lists.FilterFilter(jobs, j => Matches(j, term), j => Matches(j, longer));
  }

  lemma LowerIdempotent(s: string)
    ensures Text.Lower(Text.Lower(s)) == Text.Lower(s)
  {
  }

  /** The case of the term does not matter. */
  lemma CaseOfTermIgnored(jobs: seq<Job>, term: string)
    ensures Filtered(jobs, Text.Lower(term)) == Filtered(jobs, term)
  {
    LowerIdempotent(term);
    Lists.FilterCongruent(jobs, j => Matches(j, Text.Lower(term)), j => Matches(j, term));
  }

  /** A job without a company is found by its title or location alone. */
  lemma NoCompany(job: Job, term: string)
    requires job.company.None?
    ensures Matches(job, term) <==>
      Text.Contains(Text.Lower(job.title), Text.Lower(term)) || Text.Contains(Text.Lower(job.location), Text.Lower(term))
  {
  }

  /** How the fetch of all jobs stands. */
  datatype Fetch = Pending | Loaded(jobs: seq<Job>) | LoadFailed

  /** What the page shows. */
  datatype View = Spinner | ErrorAlert(message: string) | Listing(cards: seq<Job>, noMatches: bool)

  /** The page: a spinner until the fetch ends, an alert if it failed,
      otherwise the matching cards and, when there are none, a notice. */
  function Render(fetch: Fetch, term: string): (r: View)
    ensures fetch.Pending? <==> r.Spinner?
    ensures fetch.LoadFailed? ==> r == ErrorAlert("Failed to load jobs. Please try again later.")
    ensures fetch.Loaded? ==> r.Listing? && r.cards == Filtered(fetch.jobs, term)
    ensures fetch.Loaded? ==> (r.noMatches <==> forall i :: 0 <= i < |fetch.jobs| ==> !Matches(fetch.jobs[i], term))
  {
    match fetch
    case Pending => Spinner
    case LoadFailed => ErrorAlert("Failed to load jobs. Please try again later.")
    case Loaded(jobs) =>
      var cards := Filtered(jobs, term);
      Listing(cards, |cards| == 0)
  }
}
