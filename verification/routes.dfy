/** The project and bid request handlers of the API server. Each handler is
    a total function from the signed-in user (if any), the raw path id, the
    request body and the stored projects and bids to the HTTP response and
    the new store. Failures answer in a fixed order of checks; only a
    successful request changes the store. */
module Routes {
  import opened Wrappers
  import opened Seqs
  import opened Text
  import opened Numbers
  import opened Schema

  datatype Project = Project(
    id: int, companyId: int, title: string, description: string, category: Category,
    location: string, budgetMin: real, budgetMax: real, duration: Option<string>,
    status: ProjectStatus)

  datatype Bid = Bid(
    id: int, projectId: int, contractorId: int, amount: real,
    description: Option<string>, deliveryTime: Option<string>, status: BidStatus)

  /** The stored rows, with the next value of each table's serial id. */
  datatype Store = Store(projects: seq<Project>, bids: seq<Bid>, nextProjectId: int, nextBidId: int)

  /** Every id is unique within its table and below the table's next id. */
  predicate ValidStore(s: Store) {
    && (forall i, j :: 0 <= i < j < |s.projects| ==> s.projects[i].id != s.projects[j].id)
    && (forall i, j :: 0 <= i < j < |s.bids| ==> s.bids[i].id != s.bids[j].id)
    && (forall i :: 0 <= i < |s.projects| ==> s.projects[i].id < s.nextProjectId)
    && (forall i :: 0 <= i < |s.bids| ==> s.bids[i].id < s.nextBidId)
  }

  datatype Body =
    | Message(text: string)
    | Errors
    | OneProject(project: Project)
    | OneBid(bid: Bid)
    | BidList(bids: seq<Bid>)
    | Summary(count: nat, averageBid: real)

  datatype Response = Response(code: int, body: Body)

  datatype Outcome = Outcome(response: Response, store: Store)

  // ----- The order of checks, as a reference -----

  /** One check of a handler: whether it passes, and the status it answers
      with when it does not. */
  datatype Check = Check(passes: bool, code: int)

  /** The status of the first failing check, or `success` when all pass. */
  function FirstFailure(checks: seq<Check>, success: int): int {
    FirstFailureFrom(checks, 0, success)
  }

  function FirstFailureFrom(checks: seq<Check>, k: nat, success: int): int
    requires k <= |checks|
    decreases |checks| - k
  {
    if k == |checks| then success
    else if !checks[k].passes then checks[k].code
    else FirstFailureFrom(checks, k + 1, success)
  }

  /** The first failing check decides the status. */
  lemma FirstFailureAt(checks: seq<Check>, success: int, k: nat)
    requires k < |checks| && !checks[k].passes
    requires forall i :: 0 <= i < k ==> checks[i].passes
    ensures FirstFailure(checks, success) == checks[k].code
  {
    FirstFailureFromAt(checks, 0, success, k);
  }

  lemma {:induction false} FirstFailureFromAt(checks: seq<Check>, j: nat, success: int, k: nat)
    requires j <= k < |checks| && !checks[k].passes
    requires forall i :: j <= i < k ==> checks[i].passes
    ensures FirstFailureFrom(checks, j, success) == checks[k].code
    decreases k - j
  {
    if j < k {
      FirstFailureFromAt(checks, j + 1, success, k);
    }
  }

  /** When every check passes the handler succeeds. */
  lemma {:induction false} AllChecksPass(checks: seq<Check>, j: nat, success: int)
    requires j <= |checks|
    requires forall i :: j <= i < |checks| ==> checks[i].passes
    ensures FirstFailureFrom(checks, j, success) == success
    decreases |checks| - j
  {
    if j < |checks| {
      AllChecksPass(checks, j + 1, success);
    }
  }

  // ----- Lookups -----

  /** The first project with the given id. */
  function FindProject(ps: seq<Project>, id: int): (r: Option<Project>)
    ensures r.Some? ==> r.value in ps && r.value.id == id
    ensures r.None? <==> forall p :: p in ps ==> p.id != id
  {
    if |ps| == 0 then None
    else if ps[0].id == id then Some(ps[0])
    else FindProject(ps[1..], id)
  }

  /** The first bid with the given id. */
  function FindBid(bs: seq<Bid>, id: int): (r: Option<Bid>)
    ensures r.Some? ==> r.value in bs && r.value.id == id
    ensures r.None? <==> forall b :: b in bs ==> b.id != id
  {
    if |bs| == 0 then None
    else if bs[0].id == id then Some(bs[0])
    else FindBid(bs[1..], id)
  }

  function BidsOfProject(bs: seq<Bid>, projectId: int): seq<Bid> {
    Filter((b: Bid) => b.projectId == projectId, bs)
  }

  function BidsOfContractor(bs: seq<Bid>, contractorId: int): seq<Bid> {
    Filter((b: Bid) => b.contractorId == contractorId, bs)
  }

  function BidAmount(b: Bid): real {
    b.amount
  }

  function Fail(code: int, text: string, s: Store): Outcome {
    Outcome(Response(code, Message(text)), s)
  }

  // ----- GET /api/projects/:id -----

  function GetProject(idText: string, s: Store): (o: Outcome)
    ensures o.store == s
    ensures o.response.code == 200 <==> ParseInt(idText).Some? && FindProject(s.projects, ParseInt(idText).value).Some?
    ensures o.response.code == 200 ==> o.response.body.OneProject? && o.response.body.project.id == ParseInt(idText).value
  {
    var id := ParseInt(idText);
    if id.None? then Fail(400, "Invalid project ID", s)
    else
      var p := FindProject(s.projects, id.value);
      if p.None? then Fail(404, "Project not found", s)
      else Outcome(Response(200, OneProject(p.value)), s)
  }

  // ----- POST /api/projects -----

  /** The stored project for an accepted body: the company is the caller and
      the status is the body's or the column default `open`. */
  function NewProject(id: int, companyId: int, b: ProjectInsert): Project
    requires ProjectFieldsAccepted(b)
  {
    Project(id, companyId, b.title.value, b.description.value, ParseCategory(b.category.value).value,
            b.location.value, b.budgetMin.value, b.budgetMax.value, b.duration,
            if b.status.Some? then ParseProjectStatus(b.status.value).value else Open)
  }

  /** Creating a project, given whether the handler's schema accepts the body. */
  function CreateProjectWith(accepted: bool, session: Option<User>, b: ProjectInsert, s: Store): Outcome
    requires accepted ==> ProjectFieldsAccepted(b)
  {
    if session.None? then Fail(401, "You must be logged in", s)
    else if session.value.role != Company then Fail(403, "Only companies can create projects", s)
    else if !accepted then Outcome(Response(400, Errors), s)
    else
      var p := NewProject(s.nextProjectId, session.value.id, b);
      Outcome(Response(201, OneProject(p)),
              s.(projects := s.projects + [p], nextProjectId := s.nextProjectId + 1))
  }

  /** The handler as written: `insertProjectSchema`, which requires a
      `companyId` in the body, is applied before the caller's id replaces it. */
  function CreateProject(session: Option<User>, b: ProjectInsert, s: Store): (o: Outcome)
    ensures o.response.code != 201 ==> o.store == s
    ensures o.response.code == 201 ==> (o.response.body.OneProject?
              && session.Some? && o.response.body.project.companyId == session.value.id
              && o.store.projects == s.projects + [o.response.body.project]
              && o.store.bids == s.bids)
  {
    CreateProjectWith(ProjectInsertAccepts(b), session, b, s)
  }

  /** The evidently intended handler: the body is checked without `companyId`,
      which the handler supplies from the session. */
  function CreateProjectIntended(session: Option<User>, b: ProjectInsert, s: Store): (o: Outcome)
    ensures o.response.code != 201 ==> o.store == s
    ensures o.response.code == 201 ==> (o.response.body.OneProject?
              && session.Some? && o.response.body.project.companyId == session.value.id
              && o.store.projects == s.projects + [o.response.body.project]
              && o.store.bids == s.bids)
  {
    CreateProjectWith(ProjectFieldsAccepted(b), session, b, s)
  }

  /** The company of a new project is always the caller: two bodies that
      differ only in the `companyId` they name create the same project. */
  lemma CompanyIdFromCaller(session: Option<User>, b: ProjectInsert, other: int, s: Store)
    requires b.companyId.Some?
    ensures CreateProject(session, b, s) == CreateProject(session, b.(companyId := Some(other)), s)
  {
  }

  /** A body without `companyId`, which is what the project form sends, is
      refused by the handler as written whoever sends it. */
  lemma ProjectWithoutCompanyIdRefused(session: Option<User>, b: ProjectInsert, s: Store)
    requires b.companyId.None?
    ensures CreateProject(session, b, s).response.code in {400, 401, 403}
    ensures CreateProject(session, b, s).store == s
  {
  }

  /** The intended handler creates the project for a signed-in company whose
      body passes every other check, with or without a `companyId`. */
  lemma ProjectWithoutCompanyIdIntended(company: User, b: ProjectInsert, s: Store)
    requires company.role == Company && ProjectFieldsAccepted(b)
    ensures CreateProjectIntended(Some(company), b, s).response.code == 201
    ensures CreateProjectIntended(Some(company), b.(companyId := None), s)
            == CreateProjectIntended(Some(company), b, s)
  {
  }

  // ----- GET /api/projects/:id/bids -----

  /** The public bid summary: the count and the mean amount, 0 with no bids. */
  function BidSummary(bs: seq<Bid>): (r: Body)
    ensures r.Summary? && r.count == |bs|
    ensures |bs| == 0 ==> r.averageBid == 0.0
  {
    Summary(|bs|, if |bs| > 0 then Sum(BidAmount, bs) / |bs| as real else 0.0)
  }

  /** Whether the caller gets the summary rather than the list. */
  predicate SummaryOnly(session: Option<User>, p: Project) {
    session.None? || (session.value.role == Company && session.value.id != p.companyId)
  }

  function GetProjectBids(session: Option<User>, idText: string, s: Store): (o: Outcome)
    ensures o.store == s
  {
    var id := ParseInt(idText);
    if id.None? then Fail(400, "Invalid project ID", s)
    else
      var p := FindProject(s.projects, id.value);
      if p.None? then Fail(404, "Project not found", s)
      else if SummaryOnly(session, p.value) then
        Outcome(Response(200, BidSummary(BidsOfProject(s.bids, id.value))), s)
      else Outcome(Response(200, BidList(BidsOfProject(s.bids, id.value))), s)
  }

  /** Who sees what: visitors and companies other than the owner get only the
      summary; the owner, every contractor and every admin get the project's
      bids, exactly those and in the stored order. */
  lemma BidVisibility(session: Option<User>, p: Project, s: Store)
    requires FindProject(s.projects, p.id) == Some(p)
    ensures var o := GetProjectBids(session, IntToString(p.id), s);
      && o.response.code == 200
      && (o.response.body.BidList? <==> session.Some? && (session.value.role != Company || session.value.id == p.companyId))
      && (o.response.body.Summary? ==> o.response.body.count == |BidsOfProject(s.bids, p.id)|)
      && (o.response.body.BidList? ==> (IsSubsequence(o.response.body.bids, s.bids)
            && forall b :: b in o.response.body.bids <==> b in s.bids && b.projectId == p.id))
  {
    ParseIntOfIntToString(p.id);
    FilterIsSubsequence((b: Bid) => b.projectId == p.id, s.bids);
  }

  /** The quotient of a sum by a positive count lies between the bounds the
      sum has after scaling. */
  lemma QuotientBounds(total: real, n: real, lo: real, hi: real)
    requires n > 0.0 && n * lo <= total <= n * hi
    ensures lo <= total / n <= hi
  {
    var q := total / n;
    assert q * n == total;
  }

  /** The average bid lies between any bounds every amount respects; in
      particular between the smallest and the largest bid. */
  lemma AverageWithinBounds(bs: seq<Bid>, lo: real, hi: real)
    requires |bs| > 0
    requires forall b :: b in bs ==> lo <= b.amount <= hi
    ensures lo <= BidSummary(bs).averageBid <= hi
  {
    SumAtLeast(BidAmount, bs, lo);
    SumAtMost(BidAmount, bs, hi);
    QuotientBounds(Sum(BidAmount, bs), |bs| as real, lo, hi);
  }

  // ----- POST /api/projects/:id/bids -----

  /** The stored bid for an accepted body: the project is the path's, the
      contractor is the caller, and the status is the body's or the column
      default `pending`. */
  function NewBid(id: int, projectId: int, contractorId: int, b: BidInsert): Bid
    requires BidFieldsAccepted(b)
  {
    Bid(id, projectId, contractorId, b.amount.value, b.description, b.deliveryTime,
        if b.status.Some? then ParseBidStatus(b.status.value).value else BidPending)
  }

  /** The checks of bid creation, in the handler's order, given the parsed
      path id and the project it names. */
  function BidChecks(session: Option<User>, id: Option<int>, p: Option<Project>, bodyOk: bool): seq<Check> {
    [Check(session.Some?, 401),
     Check(session.Some? && session.value.role == Contractor, 403),
     Check(id.Some?, 400),
     Check(p.Some?, 404),
     Check(p.Some? && p.value.status == Open, 400),
     Check(bodyOk, 400)]
  }

  /** The project a path id names, if it is a number and the project exists. */
  function ProjectAt(idText: string, s: Store): Option<Project> {
    var id := ParseInt(idText);
    if id.Some? then FindProject(s.projects, id.value) else None
  }

  /** Creating a bid, given whether the handler's schema accepts the body. */
  function CreateBidWith(accepted: bool, session: Option<User>, idText: string,
                         b: BidInsert, s: Store): Outcome
    requires accepted ==> BidFieldsAccepted(b)
  {
    CreateBidAt(accepted, session, ParseInt(idText), b, s)
  }

  /** Creating a bid once the path id has been read: a failure leaves the
      store alone, and a new bid is on that project, by the caller, and
      appended to the bids. */
  function CreateBidAt(accepted: bool, session: Option<User>, id: Option<int>,
                       b: BidInsert, s: Store): (o: Outcome)
    requires accepted ==> BidFieldsAccepted(b)
    ensures o.response.code != 201 ==> o.store == s
    ensures o.response.code == 201 ==> (o.response.body.OneBid?
              && id == Some(o.response.body.bid.projectId)
              && session.Some? && o.response.body.bid.contractorId == session.value.id
              && (b.status.None? ==> o.response.body.bid.status == BidPending)
              && o.store.bids == s.bids + [o.response.body.bid]
              && o.store.projects == s.projects)
  {
    if session.None? then Fail(401, "You must be logged in", s)
    else if session.value.role != Contractor then Fail(403, "Only contractors can create bids", s)
    else if id.None? then Fail(400, "Invalid project ID", s)
    else
      var p := FindProject(s.projects, id.value);
      if p.None? then Fail(404, "Project not found", s)
      else if p.value.status != Open then Fail(400, "Project is not open for bidding", s)
      else if !accepted then Outcome(Response(400, Errors), s)
      else
        var nb := NewBid(s.nextBidId, id.value, session.value.id, b);
        Outcome(Response(201, OneBid(nb)), s.(bids := s.bids + [nb], nextBidId := s.nextBidId + 1))
  }

  /** The handler as written: `insertBidSchema` requires `projectId` and
      `contractorId` in the body before the handler overrides both. */
  function CreateBid(session: Option<User>, idText: string, b: BidInsert, s: Store): (o: Outcome)
    ensures o.response.code != 201 ==> o.store == s
    ensures o.response.code == 201 ==> (o.response.body.OneBid?
              && ParseInt(idText) == Some(o.response.body.bid.projectId)
              && session.Some? && o.response.body.bid.contractorId == session.value.id
              && (b.status.None? ==> o.response.body.bid.status == BidPending)
              && o.store.bids == s.bids + [o.response.body.bid]
              && o.store.projects == s.projects)
  {
    CreateBidWith(BidInsertAccepts(b), session, idText, b, s)
  }

  /** The evidently intended handler: the body is checked without the two
      ids, which the handler supplies. */
  function CreateBidIntended(session: Option<User>, idText: string, b: BidInsert, s: Store): (o: Outcome)
    ensures o.response.code != 201 ==> o.store == s
    ensures o.response.code == 201 ==> (o.response.body.OneBid?
              && ParseInt(idText) == Some(o.response.body.bid.projectId)
              && session.Some? && o.response.body.bid.contractorId == session.value.id
              && (b.status.None? ==> o.response.body.bid.status == BidPending)
              && o.store.bids == s.bids + [o.response.body.bid]
              && o.store.projects == s.projects)
  {
    CreateBidWith(BidFieldsAccepted(b), session, idText, b, s)
  }

  /** A bid is only ever added to a project that is open. */
  lemma BidsOnlyOnOpenProjects(session: Option<User>, idText: string, b: BidInsert, s: Store)
    requires CreateBid(session, idText, b, s).response.code == 201
    ensures FindProject(s.projects, ParseInt(idText).value).Some?
    ensures FindProject(s.projects, ParseInt(idText).value).value.status == Open
  {
  }

  /** A body without the two ids, which is what the bid form sends, is
      refused by the handler as written; the intended handler accepts it
      for a contractor on an open project. */
  lemma BidWithoutIdsRefused(contractor: User, p: Project, b: BidInsert, s: Store)
    requires contractor.role == Contractor && FindProject(s.projects, p.id) == Some(p) && p.status == Open
    requires b.projectId.None? && b.contractorId.None? && BidFieldsAccepted(b)
    ensures CreateBid(Some(contractor), IntToString(p.id), b, s).response.code == 400
    ensures CreateBidIntended(Some(contractor), IntToString(p.id), b, s).response.code == 201
  {
    ParseIntOfIntToString(p.id);
  }

  /** The body may set the new bid's status: nothing stops a contractor from
      submitting a bid that is already `accepted`. */
  lemma BidStatusFromBody(contractor: User, p: Project, b: BidInsert, s: Store)
    requires contractor.role == Contractor && FindProject(s.projects, p.id) == Some(p) && p.status == Open
    requires BidInsertAccepts(b) && b.status == Some("accepted")
    ensures CreateBid(Some(contractor), IntToString(p.id), b, s).response.code == 201
    ensures CreateBid(Some(contractor), IntToString(p.id), b, s).response.body.bid.status == Accepted
  {
    ParseIntOfIntToString(p.id);
  }

  // ----- GET /api/contractors/:id/bids -----

  function GetContractorBids(session: Option<User>, idText: string, s: Store): (o: Outcome)
    ensures o.store == s
    ensures o.response.code == 200 ==> o.response.body.BidList?
  {
    var id := ParseInt(idText);
    if id.None? then Fail(400, "Invalid contractor ID", s)
    else if session.None? || session.value.id != id.value then Fail(403, "Unauthorized", s)
    else Outcome(Response(200, BidList(BidsOfContractor(s.bids, id.value))), s)
  }

  /** A caller only ever reads their own bids, and reads all of them. */
  lemma OwnBidsOnly(session: Option<User>, idText: string, s: Store)
    ensures var o := GetContractorBids(session, idText, s);
      o.response.code == 200 ==>
        && session.Some?
        && forall b :: b in o.response.body.bids <==> b in s.bids && b.contractorId == session.value.id
    ensures session.Some? ==> GetContractorBids(session, IntToString(session.value.id), s).response.code == 200
  {
    var o := GetContractorBids(session, idText, s);
    if o.response.code == 200 {
      var id := ParseInt(idText).value;
      assert o.response.body.bids == BidsOfContractor(s.bids, id);
      ContractorBidsMembers(s.bids, id);
    }
    if session.Some? {
      ParseIntOfIntToString(session.value.id);
    }
  }

  lemma ContractorBidsMembers(bs: seq<Bid>, id: int)
    ensures forall b :: b in BidsOfContractor(bs, id) <==> b in bs && b.contractorId == id
  {
  }

  // ----- PATCH /api/bids/:id/status -----

  /** The decision a company may record on a bid. */
  function Decision(status: Option<string>): (r: Option<BidStatus>)
    ensures r.Some? <==> status == Some("accepted") || status == Some("rejected")
    ensures r.Some? ==> r.value in {Accepted, Rejected} && BidStatusName(r.value) == status.value
  {
    if status == Some("accepted") then Some(Accepted)
    else if status == Some("rejected") then Some(Rejected)
    else None
  }

  /** Every bid with the id takes the new status; the rest are unchanged. */
  function SetBidStatus(bs: seq<Bid>, id: int, st: BidStatus): (r: seq<Bid>)
    ensures |r| == |bs|
    ensures forall i :: 0 <= i < |bs| ==> r[i] == if bs[i].id == id then bs[i].(status := st) else bs[i]
  {
    Map((b: Bid) => if b.id == id then b.(status := st) else b, bs)
  }

  function UpdateBidStatus(session: Option<User>, idText: string, status: Option<string>, s: Store): (o: Outcome)
    ensures o.response.code != 200 ==> o.store == s
    ensures o.response.code == 200 ==> (o.response.body.OneBid?
              && ParseInt(idText) == Some(o.response.body.bid.id)
              && Decision(status) == Some(o.response.body.bid.status)
              && o.store == s.(bids := SetBidStatus(s.bids, o.response.body.bid.id, o.response.body.bid.status)))
  {
    if session.None? then Fail(401, "You must be logged in", s)
    else if session.value.role != Company then Fail(403, "Only companies can update bid status", s)
    else
      var id := ParseInt(idText);
      if id.None? then Fail(400, "Invalid bid ID", s)
      else
        var st := Decision(status);
        if st.None? then Fail(400, "Invalid status", s)
        else
          var bs := SetBidStatus(s.bids, id.value, st.value);
          var found := FindBid(s.bids, id.value);
          if found.None? then Fail(404, "Bid not found", s)
          else Outcome(Response(200, OneBid(found.value.(status := st.value))), s.(bids := bs))
  }

  /** Only the role is checked: any company may accept or reject any bid,
      whoever owns its project and whatever status the bid is in, and the
      change touches nothing but that bid's status; no project changes. */
  lemma BidDecisionChecksRoleOnly(company: User, bid: Bid, st: string, s: Store)
    requires company.role == Company && st in {"accepted", "rejected"}
    requires ValidStore(s) && bid in s.bids
    ensures var o := UpdateBidStatus(Some(company), IntToString(bid.id), Some(st), s);
      && o.response.code == 200
      && o.store.projects == s.projects
      && |o.store.bids| == |s.bids|
      && (forall i :: 0 <= i < |s.bids| && s.bids[i] != bid ==> o.store.bids[i] == s.bids[i])
      && (forall i :: 0 <= i < |s.bids| && s.bids[i] == bid ==> o.store.bids[i] == bid.(status := Decision(Some(st)).value))
  {
    ParseIntOfIntToString(bid.id);
    assert FindBid(s.bids, bid.id).Some?;
    var d := Decision(Some(st)).value;
    var o := UpdateBidStatus(Some(company), IntToString(bid.id), Some(st), s);
    assert o.store.bids == SetBidStatus(s.bids, bid.id, d);
    forall j | 0 <= j < |s.bids| && s.bids[j] != bid
      ensures s.bids[j].id != bid.id
    {
      OtherBidsOtherIds(s, bid, j);
    }
  }

  /** In a valid store a bid is the only one with its id. */
  lemma OtherBidsOtherIds(s: Store, bid: Bid, j: int)
    requires ValidStore(s) && bid in s.bids
    requires 0 <= j < |s.bids| && s.bids[j] != bid
    ensures s.bids[j].id != bid.id
  {
    var i :| 0 <= i < |s.bids| && s.bids[i] == bid;
    if j < i {
      assert s.bids[j].id != s.bids[i].id;
    } else {
      assert s.bids[i].id != s.bids[j].id;
    }
  }

  // ----- The order of checks of each handler -----

  function ProjectChecks(session: Option<User>, bodyOk: bool): seq<Check> {
    [Check(session.Some?, 401),
     Check(session.Some? && session.value.role == Company, 403),
     Check(bodyOk, 400)]
  }

  lemma CreateProjectWithOrder(accepted: bool, session: Option<User>, b: ProjectInsert, s: Store)
    requires accepted ==> ProjectFieldsAccepted(b)
    ensures CreateProjectWith(accepted, session, b, s).response.code == FirstFailure(ProjectChecks(session, accepted), 201)
  {
    var cs := ProjectChecks(session, accepted);
    if session.None? { FirstFailureAt(cs, 201, 0); }
    else if session.value.role != Company { FirstFailureAt(cs, 201, 1); }
    else if !accepted { FirstFailureAt(cs, 201, 2); }
    else { AllChecksPass(cs, 0, 201); }
  }

  /** Project creation answers 401, then 403 for a caller who is not a
      company, then 400 for a body the schema refuses, else 201. */
  lemma CreateProjectCheckOrder(session: Option<User>, b: ProjectInsert, s: Store)
    ensures CreateProject(session, b, s).response.code == FirstFailure(ProjectChecks(session, ProjectInsertAccepts(b)), 201)
    ensures CreateProjectIntended(session, b, s).response.code == FirstFailure(ProjectChecks(session, ProjectFieldsAccepted(b)), 201)
  {
    CreateProjectWithOrder(ProjectInsertAccepts(b), session, b, s);
    CreateProjectWithOrder(ProjectFieldsAccepted(b), session, b, s);
  }

  lemma CreateBidWithOrder(accepted: bool, session: Option<User>, idText: string, b: BidInsert, s: Store)
    requires accepted ==> BidFieldsAccepted(b)
    ensures CreateBidWith(accepted, session, idText, b, s).response.code
            == FirstFailure(BidChecks(session, ParseInt(idText), ProjectAt(idText, s), accepted), 201)
  {
    var id := ParseInt(idText);
    var p := if id.Some? then FindProject(s.projects, id.value) else None;
    assert ProjectAt(idText, s) == p;
    CreateBidAtOrder(accepted, session, id, p, b, s);
  }

  lemma CreateBidAtOrder(accepted: bool, session: Option<User>, id: Option<int>, p: Option<Project>,
                         b: BidInsert, s: Store)
    requires accepted ==> BidFieldsAccepted(b)
    requires p == if id.Some? then FindProject(s.projects, id.value) else None
    ensures CreateBidAt(accepted, session, id, b, s).response.code
            == FirstFailure(BidChecks(session, id, p, accepted), 201)
  {
    FirstFailureOfSix(BidChecks(session, id, p, accepted), 201);
  }

  /** A list of five checks, unrolled. */
  lemma FirstFailureOfFive(cs: seq<Check>, success: int)
    requires |cs| == 5
    ensures FirstFailure(cs, success) ==
      if !cs[0].passes then cs[0].code else if !cs[1].passes then cs[1].code
      else if !cs[2].passes then cs[2].code else if !cs[3].passes then cs[3].code
      else if !cs[4].passes then cs[4].code
      else success
  {
    assert FirstFailureFrom(cs, 5, success) == success;
    assert FirstFailureFrom(cs, 4, success) == if !cs[4].passes then cs[4].code else success;
    assert FirstFailureFrom(cs, 3, success) == if !cs[3].passes then cs[3].code else FirstFailureFrom(cs, 4, success);
    assert FirstFailureFrom(cs, 2, success) == if !cs[2].passes then cs[2].code else FirstFailureFrom(cs, 3, success);
    assert FirstFailureFrom(cs, 1, success) == if !cs[1].passes then cs[1].code else FirstFailureFrom(cs, 2, success);
  }

  /** A list of six checks, unrolled. */
  lemma FirstFailureOfSix(cs: seq<Check>, success: int)
    requires |cs| == 6
    ensures FirstFailure(cs, success) ==
      if !cs[0].passes then cs[0].code else if !cs[1].passes then cs[1].code
      else if !cs[2].passes then cs[2].code else if !cs[3].passes then cs[3].code
      else if !cs[4].passes then cs[4].code else if !cs[5].passes then cs[5].code
      else success
  {
    assert FirstFailureFrom(cs, 6, success) == success;
    assert FirstFailureFrom(cs, 5, success) == if !cs[5].passes then cs[5].code else success;
    assert FirstFailureFrom(cs, 4, success) == if !cs[4].passes then cs[4].code else FirstFailureFrom(cs, 5, success);
    assert FirstFailureFrom(cs, 3, success) == if !cs[3].passes then cs[3].code else FirstFailureFrom(cs, 4, success);
    assert FirstFailureFrom(cs, 2, success) == if !cs[2].passes then cs[2].code else FirstFailureFrom(cs, 3, success);
    assert FirstFailureFrom(cs, 1, success) == if !cs[1].passes then cs[1].code else FirstFailureFrom(cs, 2, success);
  }

  /** Bid creation answers 401, then 403 for a caller who is not a
      contractor, then 400 for an id that is not a number, 404 for a missing
      project, 400 for a project that is not open, 400 for a body the schema
      refuses, else 201. */
  lemma CreateBidCheckOrder(session: Option<User>, idText: string, b: BidInsert, s: Store)
    ensures CreateBid(session, idText, b, s).response.code == FirstFailure(BidChecks(session, ParseInt(idText), ProjectAt(idText, s), BidInsertAccepts(b)), 201)
    ensures CreateBidIntended(session, idText, b, s).response.code == FirstFailure(BidChecks(session, ParseInt(idText), ProjectAt(idText, s), BidFieldsAccepted(b)), 201)
  {
    CreateBidWithOrder(BidInsertAccepts(b), session, idText, b, s);
    CreateBidWithOrder(BidFieldsAccepted(b), session, idText, b, s);
  }

  /** Listing a project's bids answers 400 for an id that is not a number,
      then 404 for a missing project, else 200, signed in or not. */
  lemma GetProjectBidsCheckOrder(session: Option<User>, idText: string, s: Store)
    ensures GetProjectBids(session, idText, s).response.code == FirstFailure(
      [Check(ParseInt(idText).Some?, 400),
       Check(ParseInt(idText).Some? && FindProject(s.projects, ParseInt(idText).value).Some?, 404)], 200)
  {
    var cs := [Check(ParseInt(idText).Some?, 400),
               Check(ParseInt(idText).Some? && FindProject(s.projects, ParseInt(idText).value).Some?, 404)];
    if ParseInt(idText).None? { FirstFailureAt(cs, 200, 0); }
    else if FindProject(s.projects, ParseInt(idText).value).None? { FirstFailureAt(cs, 200, 1); }
    else { AllChecksPass(cs, 0, 200); }
  }

  /** Listing a contractor's bids answers 400 for an id that is not a number
      (before looking at the session), then 403 unless the caller is signed
      in with that id, else 200. */
  lemma GetContractorBidsCheckOrder(session: Option<User>, idText: string, s: Store)
    ensures GetContractorBids(session, idText, s).response.code == FirstFailure(
      [Check(ParseInt(idText).Some?, 400),
       Check(session.Some? && ParseInt(idText) == Some(session.value.id), 403)], 200)
  {
    var cs := [Check(ParseInt(idText).Some?, 400),
               Check(session.Some? && ParseInt(idText) == Some(session.value.id), 403)];
    if ParseInt(idText).None? { FirstFailureAt(cs, 200, 0); }
    else if session.None? || session.value.id != ParseInt(idText).value { FirstFailureAt(cs, 200, 1); }
    else { AllChecksPass(cs, 0, 200); }
  }

  function DecisionChecks(session: Option<User>, idText: string, status: Option<string>, s: Store): seq<Check> {
    [Check(session.Some?, 401),
     Check(session.Some? && session.value.role == Company, 403),
     Check(ParseInt(idText).Some?, 400),
     Check(Decision(status).Some?, 400),
     Check(ParseInt(idText).Some? && FindBid(s.bids, ParseInt(idText).value).Some?, 404)]
  }

  /** Recording a decision answers 401, then 403 for a caller who is not a
      company, 400 for an id that is not a number, 400 for a status other
      than accepted or rejected, 404 for a missing bid, else 200. */
  lemma UpdateBidStatusCheckOrder(session: Option<User>, idText: string, status: Option<string>, s: Store)
    ensures UpdateBidStatus(session, idText, status, s).response.code == FirstFailure(DecisionChecks(session, idText, status, s), 200)
  {
    FirstFailureOfFive(DecisionChecks(session, idText, status, s), 200);
  }

  // ----- The store invariant -----

  /** Creating a project keeps the ids unique and below the next id. */
  lemma CreateProjectKeepsStoreValid(accepted: bool, session: Option<User>, b: ProjectInsert, s: Store)
    requires accepted ==> ProjectFieldsAccepted(b)
    requires ValidStore(s)
    ensures ValidStore(CreateProjectWith(accepted, session, b, s).store)
  {
    if session.Some? && session.value.role == Company && accepted {
      var p := NewProject(s.nextProjectId, session.value.id, b);
      assert CreateProjectWith(accepted, session, b, s).store
             == s.(projects := s.projects + [p], nextProjectId := s.nextProjectId + 1);
    }
  }

  /** Creating a bid keeps the ids unique and below the next id. */
  lemma CreateBidKeepsStoreValid(accepted: bool, session: Option<User>, idText: string, b: BidInsert, s: Store)
    requires accepted ==> BidFieldsAccepted(b)
    requires ValidStore(s)
    ensures ValidStore(CreateBidWith(accepted, session, idText, b, s).store)
  {
    var o := CreateBidWith(accepted, session, idText, b, s);
    if o.store != s {
      var nb := NewBid(s.nextBidId, ParseInt(idText).value, session.value.id, b);
      assert o.store == s.(bids := s.bids + [nb], nextBidId := s.nextBidId + 1);
      AppendBidKeepsStoreValid(s, nb);
    }
  }

  lemma AppendBidKeepsStoreValid(s: Store, nb: Bid)
    requires ValidStore(s) && nb.id == s.nextBidId
    ensures ValidStore(s.(bids := s.bids + [nb], nextBidId := s.nextBidId + 1))
  {
  }

  /** Recording a decision changes no id. */
  lemma UpdateBidStatusKeepsStoreValid(session: Option<User>, idText: string, st: Option<string>, s: Store)
    requires ValidStore(s)
    ensures ValidStore(UpdateBidStatus(session, idText, st, s).store)
  {
    var o := UpdateBidStatus(session, idText, st, s);
    if o.response.code == 200 {
      SetBidStatusKeepsStoreValid(s, o.response.body.bid.id, o.response.body.bid.status);
    }
  }

  lemma SetBidStatusKeepsStoreValid(s: Store, id: int, st: BidStatus)
    requires ValidStore(s)
    ensures ValidStore(s.(bids := SetBidStatus(s.bids, id, st)))
  {
    var bs := SetBidStatus(s.bids, id, st);
    assert forall i :: 0 <= i < |bs| ==> bs[i].id == s.bids[i].id;
  }
}
