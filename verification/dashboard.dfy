/** The signed-in user's dashboard: which list it loads for the user's role,
    the three counters it derives from that list, and the recent-items
    panel. */
module Dashboard {
  import opened Wrappers
  import opened Seqs
  import opened Text
  import opened Schema

  /** The list the dashboard loads: a company's projects, anybody else's
      bids. */
  function DataPath(user: Option<User>): (path: string)
    ensures user.Some? && user.value.role == Company ==>
              path == "/api/companies/" + IntToString(user.value.id) + "/projects"
    ensures user.Some? && user.value.role != Company ==>
              path == "/api/contractors/" + IntToString(user.value.id) + "/bids"
  {
    var company := user.Some? && user.value.role == Company;
    var id := IdSegment(if user.Some? then Some(user.value.id) else None);
    if company then "/api/companies/" + id + "/projects"
    else "/api/contractors/" + id + "/bids"
  }

  /** A company's project as the counters read it; a missing bid count is
      `None`. */
  datatype ProjectRow = ProjectRow(status: string, bidCount: Option<real>)

  /** A contractor's bid with the status of its project, if loaded. */
  datatype BidRow = BidRow(status: string, projectStatus: Option<string>)

  predicate IsActive(p: ProjectRow) {
    p.status == "open" || p.status == "in_progress"
  }

  predicate IsCompleted(p: ProjectRow) {
    p.status == "completed"
  }

  predicate ActiveOrCompleted(p: ProjectRow) {
    IsActive(p) || IsCompleted(p)
  }

  /** No project is both active and completed, so the two counts add up to
      the count of either. */
  lemma {:induction false} ActiveOrCompletedCount(ps: seq<ProjectRow>)
    ensures Count(IsActive, ps) + Count(IsCompleted, ps) == Count(ActiveOrCompleted, ps)
  {
    if |ps| > 0 {
      ActiveOrCompletedCount(ps[1..]);
      CountStep(IsActive, ps);
      CountStep(IsCompleted, ps);
      CountStep(ActiveOrCompleted, ps);
    }
  }

  /** `project.bidCount || 0`. */
  function BidCount(p: ProjectRow): real {
    if p.bidCount.Some? then p.bidCount.value else 0.0
  }

  datatype CompanyStats = CompanyStats(active: nat, completed: nat, openBids: real)

  /** The company counters; anything but a loaded list gives zeros. */
  function CompanyCounters(data: Option<seq<ProjectRow>>): (r: CompanyStats)
    ensures data.None? ==> r == CompanyStats(0, 0, 0.0)
    ensures data.Some? ==> r.active + r.completed <= |data.value|
  {
    if data.None? then CompanyStats(0, 0, 0.0)
    else
      var ps := data.value;
      ActiveOrCompletedCount(ps);
      CountBound(ActiveOrCompleted, ps);
      CompanyStats(Count(IsActive, ps), Count(IsCompleted, ps), Sum(BidCount, ps))
  }

  predicate IsPending(b: BidRow) {
    b.status == "pending"
  }

  predicate IsWon(b: BidRow) {
    b.status == "accepted"
  }

  predicate ProjectDone(b: BidRow) {
    b.projectStatus == Some("completed")
  }

  datatype ContractorStats = ContractorStats(active: nat, won: nat, completedJobs: nat)

  /** The contractor counters; anything but a loaded list gives zeros. */
  function ContractorCounters(data: Option<seq<BidRow>>): (r: ContractorStats)
    ensures data.None? ==> r == ContractorStats(0, 0, 0)
    ensures data.Some? ==> r.active + r.won <= |data.value| && r.completedJobs <= |data.value|
  {
    if data.None? then ContractorStats(0, 0, 0)
    else
      var bs := data.value;
      CountDisjoint(IsPending, IsWon, bs);
      CountBound(b => IsPending(b) || IsWon(b), bs);
      CountBound(ProjectDone, bs);
      ContractorStats(Count(IsPending, bs), Count(IsWon, bs), Count(ProjectDone, bs))
  }

  /** The recent-items panel: the first three items of the list. */
  function Recent<T>(items: seq<T>): (r: seq<T>)
    ensures |r| <= 3 && |r| <= |items| && r == items[..|r|]
    ensures |items| >= 3 ==> |r| == 3
    ensures |items| < 3 ==> r == items
  {
    Take(items, 3)
  }

  // ----- Properties -----

  /** "Open Bids" is the total of the projects' bid counts: a project added
      to the list adds its own count, none when the count is missing. */
  lemma OpenBidsAdds(ps: seq<ProjectRow>, p: ProjectRow)
    ensures CompanyCounters(Some(ps + [p])).openBids == CompanyCounters(Some(ps)).openBids + BidCount(p)
    ensures p.bidCount.None? ==> CompanyCounters(Some(ps + [p])).openBids == CompanyCounters(Some(ps)).openBids
  {
    SumAppend(BidCount, ps, [p]);
  }

  /** With no negative bid counts, "Open Bids" is never negative. */
  lemma OpenBidsNonNegative(ps: seq<ProjectRow>)
    requires forall p :: p in ps && p.bidCount.Some? ==> p.bidCount.value >= 0.0
    ensures CompanyCounters(Some(ps)).openBids >= 0.0
  {
    SumNonNegative(BidCount, ps);
  }

  /** The two project counters cover the whole list exactly when every
      project is open, in progress or completed: with statuses from the
      project enum, when none is cancelled. */
  lemma AllCountedUnlessCancelled(ps: seq<ProjectRow>)
    requires forall p :: p in ps ==> ParseProjectStatus(p.status).Some?
    ensures CompanyCounters(Some(ps)).active + CompanyCounters(Some(ps)).completed == |ps|
            <==> forall p :: p in ps ==> p.status != "cancelled"
  {
    ActiveOrCompletedCount(ps);
    CountAllIff(ActiveOrCompleted, ps);
    forall p | p in ps
      ensures ActiveOrCompleted(p) <==> p.status != "cancelled"
    {
      StatusNames(p.status);
    }
  }

  /** A project status string is one of the four names. */
  lemma StatusNames(s: string)
    requires ParseProjectStatus(s).Some?
    ensures s == "open" || s == "in_progress" || s == "completed" || s == "cancelled"
  {
  }
}
