/**
 * The "My Applications" page: the fetched applications, a title search and a status
 * filter whose initial value "All" keeps every status, and the style of a status badge.
 */
module MyApplications {
  import opened Wrappers
  import opened Seqs
  import opened JsStrings

  datatype JobSummary = JobSummary(title: string)

  datatype Application = Application(id: int, status: string, jobId: int, job: Option<JobSummary>)

  /** The status filter value that keeps every application. */
  const AllStatuses := "All"

  /** `app.job?.title || ''`: a missing job reads as the empty title. */
  function TitleOf(app: Application): string {
    match app.job
    case None => ""
    case Some(j) => j.title
  }

  /** The search half of the filter. There is no empty-query guard: `includes('')` is always true. */
  predicate MatchesQuery(app: Application, searchQuery: string) {
    Includes(ToLowerCase(TitleOf(app)), ToLowerCase(searchQuery))
  }

  predicate MatchesStatus(app: Application, statusFilter: string) {
    statusFilter == AllStatuses || app.status == statusFilter
  }

  function ApplicationFilter(searchQuery: string, statusFilter: string): Application -> bool {
    (app: Application) => MatchesQuery(app, searchQuery) && MatchesStatus(app, statusFilter)
  }

  /** `filteredApplications`, recomputed on every render. */
  function FilterApplications(apps: seq<Application>, searchQuery: string, statusFilter: string): (r: seq<Application>)
    ensures IsSubsequence(r, apps)
    ensures forall app :: app in r <==> app in apps && MatchesQuery(app, searchQuery) && MatchesStatus(app, statusFilter)
    ensures forall app :: multiset(r)[app] == if MatchesQuery(app, searchQuery) && MatchesStatus(app, statusFilter) then multiset(apps)[app] else 0
  {
    var keep := ApplicationFilter(searchQuery, statusFilter);
    FilterIsSubsequence(keep, apps);
    forall app ensures app in Filter(keep, apps) <==> app in apps && keep(app) {
      FilterMembers(keep, apps, app);
    }
    forall app ensures multiset(Filter(keep, apps))[app] == if keep(app) then multiset(apps)[app] else 0 {
      FilterCount(keep, apps, app);
    }
    Filter(keep, apps)
  }

  /** With the initial filter state (empty search, "All") every application is shown. */
  lemma InitialFilterShowsAll(apps: seq<Application>)
    ensures FilterApplications(apps, "", AllStatuses) == apps
  {
    forall i | 0 <= i < |apps| ensures MatchesQuery(apps[i], "") {
      IncludesEmpty(ToLowerCase(TitleOf(apps[i])));
    }
    FilterKeepsAll(ApplicationFilter("", AllStatuses), apps);
  }

  /** An application without a job is matched only by the empty search. */
  lemma MissingJobMatchesOnlyEmptyQuery(app: Application, searchQuery: string)
    requires app.job.None?
    ensures MatchesQuery(app, searchQuery) <==> searchQuery == ""
  {
    EmptyIncludes(ToLowerCase(searchQuery));
  }

  /** Any status filter other than "All" keeps only applications with exactly that status. */
  lemma StatusFilterExact(apps: seq<Application>, searchQuery: string, statusFilter: string)
    requires statusFilter != AllStatuses
    ensures forall app :: app in FilterApplications(apps, searchQuery, statusFilter) ==> app.status == statusFilter
  {
  }

  /** Searches that lower-case to the same text show the same applications. */
  lemma FilterIgnoresQueryCase(apps: seq<Application>, q1: string, q2: string, statusFilter: string)
    requires ToLowerCase(q1) == ToLowerCase(q2)
    ensures FilterApplications(apps, q1, statusFilter) == FilterApplications(apps, q2, statusFilter)
  {
    FilterCongruent(ApplicationFilter(q1, statusFilter), ApplicationFilter(q2, statusFilter), apps);
  }

  // ---------------------------------------------------------------- status badge

  const AppliedStyle := "bg-blue-100 text-blue-800"
  const InReviewStyle := "bg-yellow-100 text-yellow-800"
  const ShortlistedStyle := "bg-green-100 text-green-800"
  const RejectedStyle := "bg-red-100 text-red-800"
  const DefaultStyle := "bg-gray-100 text-gray-800"

  predicate IsKnownStatus(status: string) {
    status == "Applied" || status == "In Review" || status == "Shortlisted" || status == "Rejected"
  }

  /** `getStatusStyle`: the badge classes for a status; unknown statuses are grey. */
  function GetStatusStyle(status: string): (r: string)
    ensures r == DefaultStyle <==> !IsKnownStatus(status)
  {
    match status
    case "Applied" => AppliedStyle
    case "In Review" => InReviewStyle
    case "Shortlisted" => ShortlistedStyle
    case "Rejected" => RejectedStyle
    case _ => DefaultStyle
  }

  /** The four known statuses get four different styles, so no two known statuses look alike. */
  lemma StatusStylesDistinct(s1: string, s2: string)
    requires IsKnownStatus(s1) && IsKnownStatus(s2) && s1 != s2
    ensures GetStatusStyle(s1) != GetStatusStyle(s2)
  {
  }

  // ---------------------------------------------------------------- the page's state

  class MyApplicationsPage {
    var applications: seq<Application>
    var searchQuery: string
    var statusFilter: string
    var loading: bool
    var error: string

    /** The initial state: nothing fetched, empty search, "All", loading. */
    constructor ()
      ensures applications == [] && searchQuery == "" && statusFilter == AllStatuses
      ensures loading && error == ""
    {
      applications, searchQuery, statusFilter := [], "", AllStatuses;
      loading, error := true, "";
    }

    /** What the page lists under the current filters. */
    function FilteredApplications(): (r: seq<Application>)
      reads this
      ensures IsSubsequence(r, applications)
      ensures forall app :: app in r <==> app in applications && MatchesQuery(app, searchQuery) && MatchesStatus(app, statusFilter)
      ensures forall app :: multiset(r)[app] == if MatchesQuery(app, searchQuery) && MatchesStatus(app, statusFilter) then multiset(applications)[app] else 0
    {
      FilterApplications(applications, searchQuery, statusFilter)
    }

    method SetSearchQuery(text: string)
      modifies this
      ensures searchQuery == text
      ensures applications == old(applications) && statusFilter == old(statusFilter)
      ensures loading == old(loading) && error == old(error)
    {
      searchQuery := text;
    }

    method SetStatusFilter(value: string)
      modifies this
      ensures statusFilter == value
      ensures applications == old(applications) && searchQuery == old(searchQuery)
      ensures loading == old(loading) && error == old(error)
    {
      statusFilter := value;
    }

    /** The fetch resolved with `data`. */
    method FetchSucceeded(data: seq<Application>)
      modifies this
      ensures applications == data && error == "" && !loading
      ensures searchQuery == old(searchQuery) && statusFilter == old(statusFilter)
    {
      applications := data;
      error := "";
      loading := false;
    }

    /** The fetch failed: the list is kept and the error message shown. */
    method FetchFailed()
      modifies this
      ensures error == "Failed to fetch applications. Please try again later." && !loading
      ensures applications == old(applications)
      ensures searchQuery == old(searchQuery) && statusFilter == old(statusFilter)
    {
      error := "Failed to fetch applications. Please try again later.";
      loading := false;
    }
  }
}
