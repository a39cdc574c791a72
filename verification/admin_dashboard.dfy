/** The admin dashboard: user, project and contract counters over the three
    lists it loads, the status badge of a project or contract, and the
    five-row tables. */
module AdminDashboard {
  import opened Wrappers
  import opened Seqs
  import opened Text
  import opened Schema

  /** A user row; `isVerified` is the flag of the user's profile, if any. */
  datatype UserRow = UserRow(role: string, isVerified: Option<bool>)

  datatype StatusRow = StatusRow(status: string)

  predicate IsCompanyUser(u: UserRow) { u.role == "company" }
  predicate IsContractorUser(u: UserRow) { u.role == "contractor" }
  predicate IsVerifiedUser(u: UserRow) { u.isVerified == Some(true) }
  predicate CompanyOrContractor(u: UserRow) { IsCompanyUser(u) || IsContractorUser(u) }

  datatype UserStats = UserStats(total: nat, companies: nat, contractors: nat, verified: nat)

  /** The user counters; a list that has not loaded counts as empty. */
  function UserCounters(data: Option<seq<UserRow>>): (r: UserStats)
    ensures data.None? ==> r == UserStats(0, 0, 0, 0)
    ensures r.companies + r.contractors <= r.total && r.verified <= r.total
    ensures data.Some? ==> r.total == |data.value|
  {
    if data.None? then UserStats(0, 0, 0, 0)
    else
      var us := data.value;
      CompanyOrContractorCount(us);
      CountBound(CompanyOrContractor, us);
      CountBound(IsVerifiedUser, us);
      UserStats(|us|, Count(IsCompanyUser, us), Count(IsContractorUser, us), Count(IsVerifiedUser, us))
  }

  lemma {:induction false} CompanyOrContractorCount(us: seq<UserRow>)
    ensures Count(IsCompanyUser, us) + Count(IsContractorUser, us) == Count(CompanyOrContractor, us)
  {
    if |us| > 0 {
      CompanyOrContractorCount(us[1..]);
      CountStep(IsCompanyUser, us);
      CountStep(IsContractorUser, us);
      CountStep(CompanyOrContractor, us);
    }
  }

  predicate HasStatus(name: string, r: StatusRow) { r.status == name }
  predicate IsOpen(r: StatusRow) { HasStatus("open", r) }
  predicate IsInProgress(r: StatusRow) { HasStatus("in_progress", r) }
  predicate IsCompleted(r: StatusRow) { HasStatus("completed", r) }
  predicate IsCancelled(r: StatusRow) { HasStatus("cancelled", r) }
  predicate IsActive(r: StatusRow) { HasStatus("active", r) }

  datatype ProjectStats = ProjectStats(total: nat, open: nat, inProgress: nat, completed: nat, cancelled: nat)

  /** The project counters; a list that has not loaded counts as empty. */
  function ProjectCounters(data: Option<seq<StatusRow>>): (r: ProjectStats)
    ensures data.None? ==> r == ProjectStats(0, 0, 0, 0, 0)
    ensures data.Some? ==> r.total == |data.value|
  {
    if data.None? then ProjectStats(0, 0, 0, 0, 0)
    else
      var ps := data.value;
      ProjectStats(|ps|, Count(IsOpen, ps), Count(IsInProgress, ps), Count(IsCompleted, ps), Count(IsCancelled, ps))
  }

  /** The four project counters add up to the total when every status comes
      from the project enum, and fall short of it otherwise. */
  lemma {:induction false} ProjectCountersPartition(ps: seq<StatusRow>)
    ensures var r := ProjectCounters(Some(ps));
            r.open + r.inProgress + r.completed + r.cancelled <= r.total
    ensures var r := ProjectCounters(Some(ps));
            r.open + r.inProgress + r.completed + r.cancelled == r.total
            <==> forall p :: p in ps ==> ParseProjectStatus(p.status).Some?
  {
    if |ps| > 0 {
      var rest := ps[1..];
      ProjectCountersPartition(rest);
      CountStep(IsOpen, ps);
      CountStep(IsInProgress, ps);
      CountStep(IsCompleted, ps);
      CountStep(IsCancelled, ps);
      assert forall p :: p in ps <==> p == ps[0] || p in rest;
    }
  }

  datatype ContractStats = ContractStats(total: nat, active: nat, completed: nat)

  /** The contract counters; a list that has not loaded counts as empty. */
  function ContractCounters(data: Option<seq<StatusRow>>): (r: ContractStats)
    ensures data.None? ==> r == ContractStats(0, 0, 0)
    ensures r.active + r.completed <= r.total
  {
    if data.None? then ContractStats(0, 0, 0)
    else
      var cs := data.value;
      ActiveOrCompletedBound(cs);
      ContractStats(|cs|, Count(IsActive, cs), Count(IsCompleted, cs))
  }

  lemma {:induction false} ActiveOrCompletedBound(cs: seq<StatusRow>)
    ensures Count(IsActive, cs) + Count(IsCompleted, cs) <= |cs|
  {
    if |cs| > 0 {
      ActiveOrCompletedBound(cs[1..]);
      CountStep(IsActive, cs);
      CountStep(IsCompleted, cs);
    }
  }

  /** The badge variants the table names; `Unset` is a badge given no
      variant at all. */
  datatype Variant = Outline | Secondary | Success | Destructive | Unset

  datatype Badge = Badge(text: string, variant: Variant)

  /** The badge table's entry for a status, if it has one. */
  function BadgeEntry(status: string): Option<Badge> {
    if status == "open" then Some(Badge("Open", Outline))
    else if status == "pending" then Some(Badge("Pending", Outline))
    else if status == "in_progress" then Some(Badge("In Progress", Secondary))
    else if status == "completed" then Some(Badge("Completed", Success))
    else if status == "cancelled" then Some(Badge("Cancelled", Destructive))
    else if status == "active" then Some(Badge("Active", Secondary))
    else if status == "verified" then Some(Badge("Verified", Success))
    else if status == "rejected" then Some(Badge("Rejected", Destructive))
    else if status == "withdrawn" then Some(Badge("Withdrawn", Destructive))
    else if status == "paid" then Some(Badge("Paid", Success))
    else None
  }

  /** The badge shown for a status: the table's entry, or the raw status as
      an outlined badge. The table is an object literal, so a status that
      names an inherited member finds that member, which is truthy: the `||`
      fallback is skipped, and the member has neither a label nor a variant. */
  function StatusBadge(status: string): (b: Badge)
    ensures BadgeEntry(status).Some? ==> b == BadgeEntry(status).value
    ensures BadgeEntry(status).None? && !InheritedKey(status) ==> b == Badge(status, Outline)
    ensures InheritedKey(status) ==> b == Badge("", Unset)
  {
    if BadgeEntry(status).Some? then BadgeEntry(status).value
    else if InheritedKey(status) then Badge("", Unset)
    else Badge(status, Outline)
  }

  /** Every project status, every milestone status and the contracts'
      default status have an entry of their own. */
  lemma KnownStatusesHaveEntries(p: ProjectStatus, m: MilestoneStatus)
    ensures BadgeEntry(ProjectStatusName(p)).Some?
    ensures BadgeEntry(MilestoneStatusName(m)).Some?
    ensures StatusBadge("active") == Badge("Active", Secondary)
  {
  }

  /** An accepted bid has no entry: its badge shows the raw status. */
  lemma AcceptedFallsBack()
    ensures BadgeEntry(BidStatusName(Accepted)).None?
    ensures StatusBadge(BidStatusName(Accepted)) == Badge("accepted", Outline)
  {
  }

  /** A status outside the table is shown as its own text, unless it names
      an inherited member: then the badge is blank and unstyled. A contract's
      status is free text, so "constructor" reaches the contracts table. */
  lemma UnknownStatusLabel(status: string)
    requires BadgeEntry(status).None?
    ensures !InheritedKey(status) ==> StatusBadge(status).text == status && StatusBadge(status).variant == Outline
    ensures InheritedKey(status) ==> StatusBadge(status).text == "" && StatusBadge(status).variant == Unset
    ensures StatusBadge("constructor") == Badge("", Unset)
    ensures StatusBadge("toString") == Badge("", Unset)
  {
  }

  /** Each table shows the first five rows of its list. */
  function TableRows<T>(items: seq<T>): (r: seq<T>)
    ensures |r| <= 5 && |r| <= |items| && r == items[..|r|]
    ensures |items| <= 5 ==> r == items
  {
    Take(items, 5)
  }
}
