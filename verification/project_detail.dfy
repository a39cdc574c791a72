/** The project detail page: who owns the project and who may bid on it, the
    owner's accept and reject actions on pending bids and the request each
    sends, the colour classes of category and status, and the budget line. */
module ProjectDetail {
  import opened Wrappers
  import opened Text
  import opened Numbers
  import opened Schema
  import Routes

  /** The viewer owns the project when their id is the project's company. */
  predicate IsOwner(user: Option<User>, p: Routes.Project) {
    user.Some? && user.value.id == p.companyId
  }

  /** The bid button: a signed-in contractor on an open project. */
  predicate CanBid(user: Option<User>, p: Routes.Project) {
    user.Some? && user.value.role == Contractor && p.status == Open
  }

  /** The page offers the bid button exactly when the server would take a
      well-formed bid from this viewer on this project. */
  lemma CanBidMatchesServer(user: Option<User>, p: Routes.Project, b: BidInsert, s: Routes.Store)
    requires Routes.FindProject(s.projects, p.id) == Some(p) && BidFieldsAccepted(b)
    ensures CanBid(user, p) <==> Routes.CreateBidIntended(user, IntToString(p.id), b, s).response.code == 201
  {
    ParseIntOfIntToString(p.id);
  }

  /** The owner's bid card lists the bids: for an owning company the server
      answers with the full list, never the summary. */
  lemma OwnerSeesBidList(user: User, p: Routes.Project, s: Routes.Store)
    requires user.role == Company && IsOwner(Some(user), p)
    requires Routes.FindProject(s.projects, p.id) == Some(p)
    ensures Routes.GetProjectBids(Some(user), IntToString(p.id), s).response.body.BidList?
  {
    Routes.BidVisibility(Some(user), p, s);
  }

  datatype Action = Accept | Reject

  /** The buttons shown on a bid: accept and reject while it is pending,
      none otherwise. */
  function BidActions(status: BidStatus): (r: seq<Action>)
    ensures |r| > 0 <==> status == BidPending
  {
    if status == BidPending then [Accept, Reject] else []
  }

  /** The status each button sends. */
  function ActionStatus(a: Action): string {
    match a
    case Accept => "accepted"
    case Reject => "rejected"
  }

  datatype StatusRequest = StatusRequest(path: string, status: string)

  /** Pressing a button: PATCH the bid's status. */
  function Press(a: Action, bidId: int): (r: StatusRequest)
    ensures r.path == "/api/bids/" + IntToString(bidId) + "/status"
  {
    StatusRequest("/api/bids/" + IntToString(bidId) + "/status", ActionStatus(a))
  }

  /** Both buttons send a decision the server accepts, and for the owning
      company the server records exactly that decision on the bid. */
  lemma ActionsAreDecisions(a: Action, owner: User, bid: Routes.Bid, s: Routes.Store)
    requires owner.role == Company
    requires Routes.FindBid(s.bids, bid.id) == Some(bid)
    ensures Routes.Decision(Some(Press(a, bid.id).status)).Some?
    ensures var o := Routes.UpdateBidStatus(Some(owner), IntToString(bid.id), Some(Press(a, bid.id).status), s);
            && o.response.code == 200
            && o.response.body.bid.status == (if a == Accept then Accepted else Rejected)
  {
    ParseIntOfIntToString(bid.id);
  }

  /** The colour class of a category; anything unknown is gray. The table is
      an object literal, so a name of an inherited member finds that member
      and skips the gray fallback; a function or object is no class name,
      so the badge gets no colour class at all. */
  function CategoryClass(category: string): string {
    if category == "construction" then "bg-blue-100 text-blue-800"
    else if category == "electrical" then "bg-yellow-100 text-yellow-800"
    else if category == "painting" then "bg-purple-100 text-purple-800"
    else if category == "plumbing" then "bg-green-100 text-green-800"
    else if category == "labour" then "bg-orange-100 text-orange-800"
    else if category == "transportation" then "bg-red-100 text-red-800"
    else if category == "other" then "bg-gray-100 text-gray-800"
    else if InheritedKey(category) then ""
    else Gray
  }

  /** The colour class of a project status, with the same fallbacks. */
  function StatusClass(status: string): string {
    if status == "open" then "bg-green-100 text-green-800"
    else if status == "in_progress" then "bg-blue-100 text-blue-800"
    else if status == "completed" then "bg-purple-100 text-purple-800"
    else if status == "cancelled" then "bg-red-100 text-red-800"
    else if InheritedKey(status) then ""
    else Gray
  }

  const Gray := "bg-gray-100 text-gray-800"

  /** Of the categories only "other" is gray, and every project status has
      a colour of its own. */
  lemma KnownColours(c: Category, st: ProjectStatus)
    ensures CategoryClass(CategoryName(c)) == Gray <==> c == Other
    ensures StatusClass(ProjectStatusName(st)) != Gray
  {
  }

  /** A category or status outside its enum falls back to gray, except the
      name of an inherited member, which gets no colour class. */
  lemma ColourFallbacks(s: string)
    ensures ParseCategory(s).None? && !InheritedKey(s) ==> CategoryClass(s) == Gray
    ensures ParseProjectStatus(s).None? && !InheritedKey(s) ==> StatusClass(s) == Gray
    ensures InheritedKey(s) ==> CategoryClass(s) == "" && StatusClass(s) == ""
    ensures ParseCategory(s).Some? || ParseProjectStatus(s).Some? ==> !InheritedKey(s)
  {
    CategoryFallback(s);
    StatusFallback(s);
  }

  lemma CategoryFallback(s: string)
    ensures ParseCategory(s).None? && !InheritedKey(s) ==> CategoryClass(s) == Gray
    ensures InheritedKey(s) ==> CategoryClass(s) == "" && ParseCategory(s).None?
  {
  }

  lemma StatusFallback(s: string)
    ensures ParseProjectStatus(s).None? && !InheritedKey(s) ==> StatusClass(s) == Gray
    ensures InheritedKey(s) ==> StatusClass(s) == "" && ParseProjectStatus(s).None?
  {
  }

  /** The budget line: the minimum, then the maximum only when it differs. */
  function BudgetLine(p: Routes.Project): (r: (real, Option<real>))
    ensures r.0 == p.budgetMin
    ensures r.1.Some? <==> p.budgetMin != p.budgetMax
    ensures r.1.Some? ==> r.1.value == p.budgetMax
  {
    (p.budgetMin, if p.budgetMin != p.budgetMax then Some(p.budgetMax) else None)
  }

  /** Whichever way the budget line is shown, both budgets can be read back
      from it. */
  lemma BudgetLineRecoversBudgets(p: Routes.Project)
    ensures BudgetLine(p).0 == p.budgetMin
    ensures BudgetLine(p).1.GetOr(BudgetLine(p).0) == p.budgetMax
  {
  }
}
