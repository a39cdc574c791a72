/** The admin's user list: the page count derived from the reported total,
    the previous/next controls, the numbered page links, the page reset on a
    new search or role filter, and the verify toggle. */
module AdminUsers {
  import opened Wrappers

  const ItemsPerPage: nat := 10

  /** `Math.ceil(total / 10)`, where a missing total counts as 0. */
  function TotalPages(total: Option<nat>): (pages: nat)
    ensures total.None? ==> pages == 0
  {
    var t := total.GetOr(0);
    if t % ItemsPerPage == 0 then t / ItemsPerPage else t / ItemsPerPage + 1
  }

  /** The page count is the least number of full pages that holds every
      user: none for no users, otherwise the last page is partly or wholly
      filled. */
  lemma TotalPagesBounds(t: nat)
    ensures TotalPages(Some(t)) == 0 <==> t == 0
    ensures t > 0 ==> (TotalPages(Some(t)) - 1) * ItemsPerPage < t <= TotalPages(Some(t)) * ItemsPerPage
    ensures forall k: nat :: k * ItemsPerPage >= t ==> k >= TotalPages(Some(t))
  {
  }

  /** The pagination bar is shown only when there is more than one page,
      that is when more than ten users match. */
  predicate ShowPagination(totalPages: nat) {
    totalPages > 1
  }

  lemma PaginationShownIff(t: nat)
    ensures ShowPagination(TotalPages(Some(t))) <==> t > ItemsPerPage
  {
    TotalPagesBounds(t);
  }

  /** The previous-page control: one page back, never below 1. */
  function Prev(page: int): (r: int)
    ensures r >= 1
    ensures page >= 1 ==> r <= page
    ensures page > 1 ==> r == page - 1
  {
    if page - 1 > 1 then page - 1 else 1
  }

  /** The next-page control: one page on, never past the last page. */
  function Next(page: int, totalPages: nat): (r: int)
    ensures r <= totalPages
    ensures page < totalPages ==> r == page + 1
    ensures 1 <= page <= totalPages ==> page <= r
  {
    if page + 1 < totalPages then page + 1 else totalPages
  }

  /** A page the list can show. */
  predicate InRange(page: int, totalPages: nat) {
    1 <= page <= totalPages
  }

  /** The controls keep the page in range, and going back from a later page
      then forward again returns to it. */
  lemma ControlsKeepRange(page: int, totalPages: nat)
    requires InRange(page, totalPages)
    ensures InRange(Prev(page), totalPages) && InRange(Next(page, totalPages), totalPages)
    ensures page > 1 ==> Next(Prev(page), totalPages) == page
    ensures page < totalPages ==> Prev(Next(page, totalPages)) == page
  {
  }

  /** `[lo, lo + 1, ..., hi]`, empty when `hi < lo`. */
  function Range(lo: int, hi: int): (r: seq<int>)
    ensures |r| == if hi < lo then 0 else hi - lo + 1
    ensures forall i :: 0 <= i < |r| ==> r[i] == lo + i
    decreases hi - lo
  {
    if hi < lo then [] else [lo] + Range(lo + 1, hi)
  }

  /** The page links: the first `min(5, totalPages)` pages, then the last
      page after an ellipsis when there are more than five. */
  function PageLinks(totalPages: nat): (links: seq<int>)
    ensures |links| == (if totalPages <= 5 then totalPages else 6)
    ensures forall i :: 0 <= i < |links| ==> InRange(links[i], totalPages)
    ensures forall i, j :: 0 <= i < j < |links| ==> links[i] < links[j]
    ensures totalPages > 0 ==> links[|links| - 1] == totalPages
  {
    var first := Range(1, if totalPages < 5 then totalPages else 5);
    first + (if totalPages > 5 then [totalPages] else [])
  }

  /** Every page up to five is reachable in one click, and the last page
      always is; pages strictly between the fifth and the last are not. */
  lemma LinkReach(totalPages: nat, p: int)
    requires InRange(p, totalPages)
    ensures p in PageLinks(totalPages) <==> p <= 5 || p == totalPages
  {
    var links := PageLinks(totalPages);
    if p <= 5 {
      assert links[p - 1] == p;
    } else if p == totalPages {
      assert links[|links| - 1] == p;
    }
  }

  /** The page-related state of the list. */
  datatype ListState = ListState(page: int, searchQuery: string, filterRole: string)

  const Initial := ListState(1, "", "all")

  /** Submitting the search box: back to the first page. */
  function SubmitSearch(s: ListState): (r: ListState)
    ensures r.page == 1 && r.searchQuery == s.searchQuery && r.filterRole == s.filterRole
  {
    s.(page := 1)
  }

  /** Choosing a role filter: the filter changes and the list returns to the
      first page. */
  function ChangeRoleFilter(s: ListState, role: string): (r: ListState)
    ensures r.page == 1 && r.filterRole == role && r.searchQuery == s.searchQuery
  {
    s.(filterRole := role, page := 1)
  }

  /** Typing in the search box: the query, which is part of the list's
      query key, changes at once and the list is fetched again, but the page
      stays where it was until the search is submitted. */
  function TypeSearch(s: ListState, q: string): (r: ListState)
    ensures r.searchQuery == q
    ensures r.page == s.page && r.filterRole == s.filterRole
  {
    s.(searchQuery := q)
  }

  /** Typing a narrower term from a later page keeps asking for that page,
      which the narrower result may not have; only submitting the search
      brings the list back to a page that exists. */
  lemma TypingKeepsStalePage(s: ListState, q: string, totalPages: nat)
    requires totalPages >= 1 && !InRange(s.page, totalPages)
    ensures !InRange(TypeSearch(s, q).page, totalPages)
    ensures TypeSearch(s, q).searchQuery == q
    ensures InRange(SubmitSearch(TypeSearch(s, q)).page, totalPages)
    ensures SubmitSearch(TypeSearch(s, q)).searchQuery == q
  {
  }

  /** Whatever page was showing, submitting a search or choosing a filter
      shows a page that exists whenever anything matches. */
  lemma ResetInRange(s: ListState, role: string, totalPages: nat)
    requires totalPages >= 1
    ensures InRange(SubmitSearch(s).page, totalPages)
    ensures InRange(ChangeRoleFilter(s, role).page, totalPages)
    ensures ChangeRoleFilter(ChangeRoleFilter(s, role), role) == ChangeRoleFilter(s, role)
  {
  }

  /** A listed user with the verification flag of their profile, if any. */
  datatype ListedUser = ListedUser(id: int, isVerified: Option<bool>)

  datatype VerifyRequest = VerifyRequest(id: int, isVerified: bool)

  /** The verify dialog's confirm button: it asks for the opposite of the
      user's current flag, a user without a profile counting as unverified. */
  function VerifyAction(u: ListedUser): (r: VerifyRequest)
    ensures r.id == u.id
    ensures u.isVerified == Some(true) ==> !r.isVerified
    ensures u.isVerified != Some(true) ==> r.isVerified
  {
    VerifyRequest(u.id, !u.isVerified.GetOr(false))
  }

  /** The flag after the server applies a verify request. */
  function Apply(u: ListedUser, r: VerifyRequest): ListedUser
    requires r.id == u.id
  {
    u.(isVerified := Some(r.isVerified))
  }

  /** Confirming twice returns a user with a profile to the flag they had. */
  lemma VerifyTwice(u: ListedUser)
    requires u.isVerified.Some?
    ensures Apply(Apply(u, VerifyAction(u)), VerifyAction(Apply(u, VerifyAction(u)))) == u
  {
  }
}
