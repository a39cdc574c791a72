/** The shared data model: the closed enums, the row defaults, and the
    acceptance rules of the server-side validation schemas that are derived
    from the tables.

    A request body is modelled field by field: `None` is an absent key, and
    each present value already has the JSON type the schema expects (a
    value of the wrong JSON type is not modelled). Enum-valued body fields
    are kept as strings because they arrive as strings. */
module Schema {
  import opened Wrappers

  datatype Role = Company | Contractor | Admin

  /** The signed-in user as the session exposes it. */
  datatype User = User(id: int, role: Role)

  datatype ProjectStatus = Open | InProgress | ProjectCompleted | Cancelled

  datatype BidStatus = BidPending | Accepted | Rejected | Withdrawn

  /** The milestone payment lifecycle, in its fixed order. */
  datatype MilestoneStatus = Pending | Completed | Verified | Paid

  datatype Category = Construction | Electrical | Painting | Plumbing | Labour | Transportation | Other

  function RoleName(r: Role): string {
    match r
    case Company => "company"
    case Contractor => "contractor"
    case Admin => "admin"
  }

  function ProjectStatusName(s: ProjectStatus): string {
    match s
    case Open => "open"
    case InProgress => "in_progress"
    case ProjectCompleted => "completed"
    case Cancelled => "cancelled"
  }

  function BidStatusName(s: BidStatus): string {
    match s
    case BidPending => "pending"
    case Accepted => "accepted"
    case Rejected => "rejected"
    case Withdrawn => "withdrawn"
  }

  function MilestoneStatusName(s: MilestoneStatus): string {
    match s
    case Pending => "pending"
    case Completed => "completed"
    case Verified => "verified"
    case Paid => "paid"
  }

  function CategoryName(c: Category): string {
    match c
    case Construction => "construction"
    case Electrical => "electrical"
    case Painting => "painting"
    case Plumbing => "plumbing"
    case Labour => "labour"
    case Transportation => "transportation"
    case Other => "other"
  }

  /** The enum value a wire string names, if any (a `z.enum` check). */
  function ParseRole(s: string): (r: Option<Role>)
    ensures r.Some? ==> RoleName(r.value) == s
    ensures forall x :: RoleName(x) == s ==> r == Some(x)
  {
    if s == "company" then Some(Company)
    else if s == "contractor" then Some(Contractor)
    else if s == "admin" then Some(Admin)
    else None
  }

  function ParseProjectStatus(s: string): (r: Option<ProjectStatus>)
    ensures r.Some? ==> ProjectStatusName(r.value) == s
    ensures forall x :: ProjectStatusName(x) == s ==> r == Some(x)
  {
    if s == "open" then Some(Open)
    else if s == "in_progress" then Some(InProgress)
    else if s == "completed" then Some(ProjectCompleted)
    else if s == "cancelled" then Some(Cancelled)
    else None
  }

  function ParseBidStatus(s: string): (r: Option<BidStatus>)
    ensures r.Some? ==> BidStatusName(r.value) == s
    ensures forall x :: BidStatusName(x) == s ==> r == Some(x)
  {
    if s == "pending" then Some(BidPending)
    else if s == "accepted" then Some(Accepted)
    else if s == "rejected" then Some(Rejected)
    else if s == "withdrawn" then Some(Withdrawn)
    else None
  }

  function ParseMilestoneStatus(s: string): (r: Option<MilestoneStatus>)
    ensures r.Some? ==> MilestoneStatusName(r.value) == s
    ensures forall x :: MilestoneStatusName(x) == s ==> r == Some(x)
  {
    if s == "pending" then Some(Pending)
    else if s == "completed" then Some(Completed)
    else if s == "verified" then Some(Verified)
    else if s == "paid" then Some(Paid)
    else None
  }

  function ParseCategory(s: string): (r: Option<Category>)
    ensures r.Some? ==> CategoryName(r.value) == s
    ensures forall x :: CategoryName(x) == s ==> r == Some(x)
  {
    if s == "construction" then Some(Construction)
    else if s == "electrical" then Some(Electrical)
    else if s == "painting" then Some(Painting)
    else if s == "plumbing" then Some(Plumbing)
    else if s == "labour" then Some(Labour)
    else if s == "transportation" then Some(Transportation)
    else if s == "other" then Some(Other)
    else None
  }

  /** A milestone status on the wire is exactly one of the four names. */
  lemma MilestoneStatusNames(s: string)
    ensures ParseMilestoneStatus(s).Some? <==> s in {"pending", "completed", "verified", "paid"}
  {
  }

  // ----- Rows and their defaults -----

  /** A milestone row as the pages receive it. */
  datatype Milestone = Milestone(
    id: int, contractId: int, title: string, description: Option<string>,
    amount: real, order: int, status: MilestoneStatus)

  /** The row the milestones table stores for an insert: the `status`
      column takes its default `pending`, and an `order` left out takes
      its default 0. */
  function NewMilestone(id: int, contractId: int, title: string, description: Option<string>,
                        amount: real, order: Option<int>): (m: Milestone)
    ensures m.status == Pending
    ensures m.order == if order.Some? then order.value else 0
    ensures m.id == id && m.contractId == contractId && m.amount == amount
  {
    Milestone(id, contractId, title, description, amount, order.GetOr(0), Pending)
  }

  // ----- Insert schemas -----

  /** Body of a user insert. */
  datatype UserInsert = UserInsert(username: Option<string>, email: Option<string>,
                                   password: Option<string>, role: Option<string>)

  /** `insertUserSchema`: username of at least 3 characters, an email the
      email validator accepts, password of at least 6, and one of the three
      roles. */
  predicate UserInsertAccepts(u: UserInsert, isEmail: string -> bool) {
    && u.username.Some? && |u.username.value| >= 3
    && u.email.Some? && isEmail(u.email.value)
    && u.password.Some? && |u.password.value| >= 6
    && u.role.Some? && ParseRole(u.role.value).Some?
  }

  /** Body of a project insert. */
  datatype ProjectInsert = ProjectInsert(
    companyId: Option<int>, title: Option<string>, description: Option<string>,
    category: Option<string>, location: Option<string>,
    budgetMin: Option<real>, budgetMax: Option<real>,
    duration: Option<string>, status: Option<string>)

  /** `insertProjectSchema` as derived from the projects table: the
      `companyId`, `category` and `location` columns are not null and have no
      default, so they are required; `status` has a default, so it may be
      left out but must name a project status when present. */
  predicate ProjectInsertAccepts(p: ProjectInsert) {
    && p.companyId.Some?
    && ProjectFieldsAccepted(p)
  }

  /** The checks of `insertProjectSchema` on every field except `companyId`. */
  predicate ProjectFieldsAccepted(p: ProjectInsert) {
    && p.title.Some? && |p.title.value| >= 5
    && p.description.Some? && |p.description.value| >= 20
    && p.category.Some? && ParseCategory(p.category.value).Some?
    && p.location.Some?
    && p.budgetMin.Some? && p.budgetMin.value > 0.0
    && p.budgetMax.Some? && p.budgetMax.value > 0.0
    && (p.status.None? || ParseProjectStatus(p.status.value).Some?)
  }

  /** Body of a bid insert. */
  datatype BidInsert = BidInsert(
    projectId: Option<int>, contractorId: Option<int>, amount: Option<real>,
    description: Option<string>, deliveryTime: Option<string>, status: Option<string>)

  /** `insertBidSchema`: `projectId` and `contractorId` are required (not
      null, no default), the amount must be positive, the description at
      least 10 characters, and a status, when given, a bid status. */
  predicate BidInsertAccepts(b: BidInsert) {
    && b.projectId.Some? && b.contractorId.Some?
    && BidFieldsAccepted(b)
  }

  /** The checks of `insertBidSchema` on every field except the two ids. */
  predicate BidFieldsAccepted(b: BidInsert) {
    && b.amount.Some? && b.amount.value > 0.0
    && b.description.Some? && |b.description.value| >= 10
    && (b.status.None? || ParseBidStatus(b.status.value).Some?)
  }

  /** Body of a milestone insert. */
  datatype MilestoneInsert = MilestoneInsert(
    contractId: Option<int>, title: Option<string>, description: Option<string>,
    amount: Option<real>, order: Option<real>)

  /** `insertMilestoneSchema`: the contract id is required; title of at least
      3 characters; description absent or at least 10 characters; a positive
      amount; an order that is a non-negative integer. The refined `order`
      replaces the column's schema, so it is required. */
  predicate MilestoneInsertAccepts(m: MilestoneInsert) {
    && m.contractId.Some?
    && m.title.Some? && |m.title.value| >= 3
    && (m.description.None? || |m.description.value| >= 10)
    && m.amount.Some? && m.amount.value > 0.0
    && m.order.Some? && IsNonNegativeInteger(m.order.value)
  }

  predicate IsNonNegativeInteger(x: real) {
    x >= 0.0 && x == x.Floor as real
  }

  /** Body of a milestone status update. */
  datatype StatusUpdate = StatusUpdate(id: Option<real>, status: Option<string>,
                                       notes: Option<string>, deliverableUrl: Option<Option<string>>)

  /** `updateMilestoneStatusSchema`: a positive integer id, one of the four
      statuses, optional notes, and a deliverable URL that is absent, null or
      accepted by the URL validator. */
  predicate StatusUpdateAccepts(u: StatusUpdate, isUrl: string -> bool) {
    && u.id.Some? && u.id.value > 0.0 && u.id.value == u.id.value.Floor as real
    && u.status.Some? && ParseMilestoneStatus(u.status.value).Some?
    && (u.deliverableUrl.None? || u.deliverableUrl.value.None? || isUrl(u.deliverableUrl.value.value))
  }

  /** `insertReviewSchema`'s rating check: a number from 1 to 5, with no
      demand that it be whole. */
  predicate ReviewRatingAccepted(rating: real) {
    1.0 <= rating <= 5.0
  }

  /** `insertMessageSchema`'s content check. */
  predicate MessageContentAccepted(content: string) {
    |content| >= 1
  }

  // ----- Properties of the schemas -----

  /** The status-update schema knows nothing of the milestone's current
      status: every one of the four statuses is accepted, so the schema
      alone permits backward steps, skips and repeats. */
  lemma StatusUpdateIgnoresOrder(current: MilestoneStatus, requested: MilestoneStatus, id: nat, isUrl: string -> bool)
    requires id > 0
    ensures StatusUpdateAccepts(StatusUpdate(Some(id as real), Some(MilestoneStatusName(requested)), None, None), isUrl)
  {
  }

  /** The id must be a positive integer and a present URL must pass the
      validator; an absent or null URL is always fine. */
  lemma StatusUpdateIdAndUrl(u: StatusUpdate, isUrl: string -> bool)
    requires StatusUpdateAccepts(u, isUrl)
    ensures u.id.value >= 1.0
    ensures u.deliverableUrl.Some? && u.deliverableUrl.value.Some? ==> isUrl(u.deliverableUrl.value.value)
    ensures StatusUpdateAccepts(u.(deliverableUrl := None), isUrl)
    ensures StatusUpdateAccepts(u.(deliverableUrl := Some(None)), isUrl)
  {
  }

  /** The project schema does not relate the two budgets: a minimum above the
      maximum is accepted. */
  lemma ProjectBudgetsUnordered()
    ensures ProjectInsertAccepts(ProjectInsert(
      Some(1), Some("Depot"), Some("Re-roof the loading depot"), Some("construction"),
      Some("Leeds"), Some(9000.0), Some(100.0), None, None))
  {
  }

  /** The only insert schema that pins the milestone description is the
      minimum length; leaving it out is accepted. */
  lemma MilestoneDescriptionOptional(m: MilestoneInsert)
    requires MilestoneInsertAccepts(m)
    ensures MilestoneInsertAccepts(m.(description := None))
    ensures m.order.value.Floor >= 0
  {
  }
}
