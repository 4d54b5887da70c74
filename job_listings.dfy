/**
 * The job-list page: the fetched jobs, the distinct locations offered in the location
 * selector, and the jobs shown, which are kept equal to the jobs whose title contains
 * the title query (ignoring case) and whose location is the selected one.
 */
module JobListings {
  import opened Seqs
  import opened JsStrings

  datatype Job = Job(id: int, title: string, company: string, location: string, description: string)

  /** Title half of the filter callback. An empty query is falsy in JavaScript and keeps every job. */
  predicate MatchesTitle(job: Job, searchTitle: string) {
    searchTitle == "" || Includes(ToLowerCase(job.title), ToLowerCase(searchTitle))
  }

  /** Location half of the filter callback: exact, case-sensitive; an empty selection keeps every job. */
  predicate MatchesLocation(job: Job, selectedLocation: string) {
    selectedLocation == "" || job.location == selectedLocation
  }

  /** The filter callback: both halves must hold. */
  function JobFilter(searchTitle: string, selectedLocation: string): Job -> bool {
    (job: Job) => MatchesTitle(job, searchTitle) && MatchesLocation(job, selectedLocation)
  }

  /** `jobs.filter(...)` as the filter effect computes it. */
  function FilterJobs(jobs: seq<Job>, searchTitle: string, selectedLocation: string): (r: seq<Job>)
    ensures IsSubsequence(r, jobs)
    ensures forall job :: job in r <==> job in jobs && MatchesTitle(job, searchTitle) && MatchesLocation(job, selectedLocation)
    ensures forall job :: multiset(r)[job] == if MatchesTitle(job, searchTitle) && MatchesLocation(job, selectedLocation) then multiset(jobs)[job] else 0
  {
    var keep := JobFilter(searchTitle, selectedLocation);
    FilterIsSubsequence(keep, jobs);
    forall job ensures job in Filter(keep, jobs) <==> job in jobs && keep(job) {
      FilterMembers(keep, jobs, job);
    }
    forall job ensures multiset(Filter(keep, jobs))[job] == if keep(job) then multiset(jobs)[job] else 0 {
      FilterCount(keep, jobs, job);
    }
    Filter(keep, jobs)
  }

  /** `res.data.map(job => job.location)`. */
  function JobLocations(jobs: seq<Job>): (r: seq<string>)
    ensures |r| == |jobs| && forall i :: 0 <= i < |jobs| ==> r[i] == jobs[i].location
  {
    Map((job: Job) => job.location, jobs)
  }

  /** `Array.from(new Set(res.data.map(job => job.location)))`. */
  function DistinctLocations(jobs: seq<Job>): (r: seq<string>)
    ensures NoDuplicates(r)
    ensures forall loc :: loc in r <==> exists i :: 0 <= i < |jobs| && jobs[i].location == loc
    ensures forall i :: 0 <= i < |r| ==> r[i] in JobLocations(jobs)
    ensures forall i, j :: 0 <= i < j < |r| ==> IndexOf(JobLocations(jobs), r[i]) < IndexOf(JobLocations(jobs), r[j])
  {
    var locs := JobLocations(jobs);
    var r := Distinct(locs);
    forall loc ensures loc in r <==> exists i :: 0 <= i < |jobs| && jobs[i].location == loc {
      if loc in r {
        var i := IndexOf(locs, loc);
        assert jobs[i].location == loc;
      }
      if exists i :: 0 <= i < |jobs| && jobs[i].location == loc {
        var i :| 0 <= i < |jobs| && jobs[i].location == loc;
        assert locs[i] == loc;
      }
    }
    r
  }

  // ---------------------------------------------------------------- properties of the filter

  /** With no query and no location, the filter keeps every job: the value set right after the fetch. */
  lemma FilterWithoutCriteria(jobs: seq<Job>)
    ensures FilterJobs(jobs, "", "") == jobs
  {
    FilterKeepsAll(JobFilter("", ""), jobs);
  }

  /** Queries that lower-case to the same text select the same jobs. */
  lemma FilterIgnoresQueryCase(jobs: seq<Job>, q1: string, q2: string, selectedLocation: string)
    requires ToLowerCase(q1) == ToLowerCase(q2)
    ensures FilterJobs(jobs, q1, selectedLocation) == FilterJobs(jobs, q2, selectedLocation)
  {
    assert q1 == "" <==> q2 == "";
    FilterCongruent(JobFilter(q1, selectedLocation), JobFilter(q2, selectedLocation), jobs);
  }

  /** A non-empty location selection keeps only jobs at exactly that location. */
  lemma FilterLocationExact(jobs: seq<Job>, searchTitle: string, selectedLocation: string)
    requires selectedLocation != ""
    ensures forall job :: job in FilterJobs(jobs, searchTitle, selectedLocation) ==> job.location == selectedLocation
  {
  }

  /**
   * With an empty query, a location taken from the selector's options keeps at least one job:
   * the options never lead to an empty list.
   */
  lemma ListedLocationKeepsAJob(jobs: seq<Job>, loc: string)
    requires loc in DistinctLocations(jobs)
    ensures FilterJobs(jobs, "", loc) != []
  {
    var i :| 0 <= i < |jobs| && jobs[i].location == loc;
    assert jobs[i] in FilterJobs(jobs, "", loc);
  }

  /**
   * The lower-cased "Backend Developer" starts with "backend". The title is a parameter
   * pinned by `requires` so that `TitleSearchExample` can pass `job.title` straight in:
   * rewriting `job.title` into the literal inside that lemma exceeds the resource limit.
   */
  lemma BackendTitleIncludesBackend(title: string)
    requires title == "Backend Developer"
    ensures Includes(ToLowerCase(title), "backend")
  {
    var lower := ToLowerCase(title);
    assert lower[..7] == "backend" by {
      assert lower[0] == 'b' && lower[1] == 'a' && lower[2] == 'c' && lower[3] == 'k';
      assert lower[4] == 'e' && lower[5] == 'n' && lower[6] == 'd';
    }
    IncludesPrefix(lower, "backend");
  }

  /** The query "backend" is already lower case. */
  lemma LowerBackendQuery()
    ensures ToLowerCase("backend") == "backend"
  {
    forall i | 0 <= i < 7 ensures ToLowerCase("backend")[i] == "backend"[i] {
      assert !IsAsciiUpper("backend"[i]);
    }
  }

  /** The query "BACKEND" lower-cases to "backend". */
  lemma UpperBackendQuery()
    ensures ToLowerCase("BACKEND") == "backend"
  {
    forall i | 0 <= i < 7 ensures ToLowerCase("BACKEND")[i] == "backend"[i] {
      assert LowerChar("BACKEND"[i]) == "backend"[i];
    }
  }

  /**
   * A job titled "Backend Developer" is found by the queries "backend" and "BACKEND",
   * whatever its id, company, location and description.
   */
  lemma TitleSearchExample(job: Job)
    requires job.title == "Backend Developer"
    ensures FilterJobs([job], "backend", "") == [job]
    ensures FilterJobs([job], "BACKEND", "") == [job]
  {
    BackendTitleIncludesBackend(job.title);
    LowerBackendQuery();
    UpperBackendQuery();
    assert MatchesTitle(job, "backend") && MatchesTitle(job, "BACKEND");
    FilterKeepsAll(JobFilter("backend", ""), [job]);
    FilterKeepsAll(JobFilter("BACKEND", ""), [job]);
  }

  /** Selecting "Pune" drops the jobs at "Pune City" and at "pune". */
  lemma LocationSelectionExample()
    ensures var a, b, c := Job(1, "Dev", "A", "Pune", ""), Job(2, "Dev", "B", "Pune City", ""), Job(3, "Dev", "C", "pune", "");
            FilterJobs([a, b, c], "", "Pune") == [a]
  {
    var a, b, c := Job(1, "Dev", "A", "Pune", ""), Job(2, "Dev", "B", "Pune City", ""), Job(3, "Dev", "C", "pune", "");
    var keep := JobFilter("", "Pune");
    assert keep(a) && !keep(b) && !keep(c);
    assert Filter(keep, [c]) == [];
    assert [b, c][1..] == [c];
    assert Filter(keep, [b, c]) == [];
    assert [a, b, c][1..] == [b, c];
    assert Filter(keep, [a, b, c]) == [a];
  }

  /** The query "dev" with location "Pune" keeps the Pune "Frontend Dev" job and drops the Mumbai "Backend Dev" job. */
  lemma ConjunctionExample(a: Job, b: Job)
    requires a.title == "Frontend Dev" && a.location == "Pune"
    requires b.title == "Backend Dev" && b.location == "Mumbai"
    ensures FilterJobs([a, b], "dev", "Pune") == [a]
  {
    var lower := ToLowerCase(a.title);
    assert lower[9..12] == "dev" by {
      assert lower[9] == 'd' && lower[10] == 'e' && lower[11] == 'v';
    }
    assert ToLowerCase("dev") == "dev" by {
      forall i | 0 <= i < 3 ensures ToLowerCase("dev")[i] == "dev"[i] {
        assert !IsAsciiUpper("dev"[i]);
      }
    }
    assert OccursAt(lower, "dev", 9);
    IncludesIffOccurs(lower, "dev");
    var keep := JobFilter("dev", "Pune");
    assert keep(a) && !keep(b);
    assert Filter(keep, [b]) == [];
    assert [a, b][1..] == [b];
    assert Filter(keep, [a, b]) == [a];
  }

  // ---------------------------------------------------------------- the page's state

  /**
   * The component's state. `filteredJobs` is what the page shows; the filter effect
   * re-establishes `Valid()` whenever the query, the selection or the jobs change.
   */
  class JobListingsPage {
    var jobs: seq<Job>
    var filteredJobs: seq<Job>
    var locations: seq<string>
    var selectedLocation: string
    var searchTitle: string

    ghost predicate Valid()
      reads this
    {
      && filteredJobs == FilterJobs(jobs, searchTitle, selectedLocation)
      && locations == DistinctLocations(jobs)
    }

    /** Every state starts empty: no jobs, no locations, no query, "All Locations". */
    constructor ()
      ensures Valid()
      ensures jobs == [] && filteredJobs == [] && locations == []
      ensures selectedLocation == "" && searchTitle == ""
    {
      jobs, filteredJobs, locations := [], [], [];
      selectedLocation, searchTitle := "", "";
    }

    /** The filter effect: recompute the shown jobs from the jobs, the query and the selection. */
    method RunFilterEffect()
      modifies this
      ensures filteredJobs == FilterJobs(jobs, searchTitle, selectedLocation)
      ensures jobs == old(jobs) && locations == old(locations)
      ensures searchTitle == old(searchTitle) && selectedLocation == old(selectedLocation)
    {
      filteredJobs := FilterJobs(jobs, searchTitle, selectedLocation);
    }

    /**
     * The fetch resolved with `data`: store the jobs, show all of them, collect the
     * locations; the change of `jobs` then triggers the filter effect.
     */
    method FetchSucceeded(data: seq<Job>)
      requires Valid()
      modifies this
      ensures Valid()
      ensures jobs == data && locations == DistinctLocations(data)
      ensures filteredJobs == FilterJobs(data, searchTitle, selectedLocation)
      ensures searchTitle == old(searchTitle) && selectedLocation == old(selectedLocation)
      ensures searchTitle == "" && selectedLocation == "" ==> filteredJobs == data
    {
      jobs := data;
      filteredJobs := data;
      locations := DistinctLocations(data);
      RunFilterEffect();
      FilterWithoutCriteria(data);
    }

    /** Typing in the title box. Setting the query it already holds changes nothing. */
    method SetSearchTitle(text: string)
      requires Valid()
      modifies this
      ensures Valid()
      ensures searchTitle == text && filteredJobs == FilterJobs(jobs, text, selectedLocation)
      ensures jobs == old(jobs) && locations == old(locations) && selectedLocation == old(selectedLocation)
      ensures old(searchTitle) == text ==> filteredJobs == old(filteredJobs)
    {
      searchTitle := text;
      RunFilterEffect();
    }

    /** Choosing in the location selector ("" is "All Locations"). Choosing the current one changes nothing. */
    method SetSelectedLocation(value: string)
      requires Valid()
      modifies this
      ensures Valid()
      ensures selectedLocation == value && filteredJobs == FilterJobs(jobs, searchTitle, value)
      ensures jobs == old(jobs) && locations == old(locations) && searchTitle == old(searchTitle)
      ensures old(selectedLocation) == value ==> filteredJobs == old(filteredJobs)
    {
      selectedLocation := value;
      RunFilterEffect();
    }
  }
}
