/** The milestone payment lifecycle on the contract milestones page: who may
    move a milestone one step along pending → completed → verified → paid,
    the status-update dialog and the request it sends, the progress and
    payment totals, and the timeline ordering. */
module Milestones {
  import opened Wrappers
  import opened Seqs
  import opened Text
  import opened Schema

  // ----- The lifecycle as a reference -----

  /** Position of a status in the lifecycle. */
  function Rank(s: MilestoneStatus): nat {
    match s
    case Pending => 0
    case Completed => 1
    case Verified => 2
    case Paid => 3
  }

  /** The status at a given position of the lifecycle. */
  function StatusAt(k: nat): (s: MilestoneStatus)
    requires k < 4
    ensures Rank(s) == k
  {
    if k == 0 then Pending else if k == 1 then Completed else if k == 2 then Verified else Paid
  }

  /** The next status of the lifecycle; the last one has none. */
  function Successor(s: MilestoneStatus): (r: Option<MilestoneStatus>)
    ensures r.Some? <==> s != Paid
    ensures r.Some? ==> Rank(r.value) == Rank(s) + 1
  {
    if Rank(s) == 3 then None else Some(StatusAt(Rank(s) + 1))
  }

  /** The permission table the page implements: which role may take which
      single step. */
  const Permitted: set<(Role, MilestoneStatus, MilestoneStatus)> :=
    { (Contractor, Pending, Completed),
      (Company, Completed, Verified), (Company, Verified, Paid),
      (Admin, Pending, Completed), (Admin, Completed, Verified), (Admin, Verified, Paid) }

  // ----- getNextStatus and canUpdateStatus -----

  /** `getNextStatus`: the status the signed-in user's button moves the
      milestone to, or `None` (the source's `null`). */
  function NextStatus(user: Option<User>, current: MilestoneStatus): Option<MilestoneStatus> {
    if user.None? then None
    else if user.value.role == Contractor && current == Pending then Some(Completed)
    else if user.value.role == Company && current == Completed then Some(Verified)
    else if user.value.role == Company && current == Verified then Some(Paid)
    else if user.value.role == Admin then
      match current
      case Pending => Some(Completed)
      case Completed => Some(Verified)
      case Verified => Some(Paid)
      case Paid => None
    else None
  }

  /** `canUpdateStatus`: whether the update button is offered. */
  function CanUpdateStatus(user: Option<User>, m: Milestone): bool {
    if user.None? then false
    else if user.value.role == Contractor && m.status == Pending then true
    else if user.value.role == Company && m.status == Completed then true
    else if user.value.role == Company && m.status == Verified then true
    else user.value.role == Admin
  }

  /** The next status is always the immediate successor: never a skip, a
      backward step or the same status; from `paid` there is none. */
  lemma NextStatusIsSuccessor(user: Option<User>, current: MilestoneStatus)
    ensures NextStatus(user, current).Some? ==> NextStatus(user, current) == Successor(current)
    ensures NextStatus(user, current).Some? ==> Rank(NextStatus(user, current).value) == Rank(current) + 1
    ensures NextStatus(user, Paid) == None
  {
  }

  /** The chain of conditions agrees with the permission table, and without
      a user there is no next status. */
  lemma NextStatusMatchesTable(user: User, current: MilestoneStatus, next: MilestoneStatus)
    ensures NextStatus(Some(user), current) == Some(next) <==> (user.role, current, next) in Permitted
    ensures NextStatus(None, current) == None
  {
  }

  /** For a contractor or a company the button is offered exactly when there
      is a next status; an admin always gets the button, even on a paid
      milestone that has no next status. */
  lemma CanUpdateMatchesNext(user: Option<User>, m: Milestone)
    ensures user.None? ==> !CanUpdateStatus(user, m)
    ensures user.Some? && user.value.role != Admin ==>
              (CanUpdateStatus(user, m) <==> NextStatus(user, m.status).Some?)
    ensures user.Some? && user.value.role == Admin ==> CanUpdateStatus(user, m)
    ensures user.Some? && user.value.role == Admin ==>
              (NextStatus(user, m.status).None? <==> m.status == Paid)
  {
  }

  // ----- The status-update dialog -----

  /** The dialog's form fields; `None` is a field left undefined. */
  datatype StatusForm = StatusForm(notes: Option<string>, deliverableUrl: Option<string>)

  /** The dialog opens with both fields set to the empty string. */
  const DialogDefaults: StatusForm := StatusForm(Some(""), Some(""))

  /** The dialog's `statusUpdateSchema` as written: an optional field only
      admits `undefined`, so a present URL, even the empty one, must pass
      the URL validator. */
  predicate StatusDialogAccepts(f: StatusForm, isUrl: string -> bool) {
    f.deliverableUrl.None? || isUrl(f.deliverableUrl.value)
  }

  /** The evidently intended rule: an empty URL field counts as no URL. */
  predicate StatusDialogAcceptsIntended(f: StatusForm, isUrl: string -> bool) {
    f.deliverableUrl.None? || f.deliverableUrl.value == "" || isUrl(f.deliverableUrl.value)
  }

  /** As written, with any URL validator that rejects the empty string, the
      dialog cannot be submitted until a URL is typed, although the field is
      marked optional. */
  lemma EmptyUrlBlocksStatusUpdate(isUrl: string -> bool)
    requires !isUrl("")
    ensures !StatusDialogAccepts(DialogDefaults, isUrl)
  {
  }

  /** The intended rule accepts the untouched dialog and agrees with the
      written one on every non-empty URL. */
  lemma EmptyUrlAllowedIntended(f: StatusForm, isUrl: string -> bool)
    ensures StatusDialogAcceptsIntended(DialogDefaults, isUrl)
    ensures f.deliverableUrl.None? || f.deliverableUrl.value != "" ==>
              (StatusDialogAcceptsIntended(f, isUrl) <==> StatusDialogAccepts(f, isUrl))
    ensures StatusDialogAccepts(f, isUrl) ==> StatusDialogAcceptsIntended(f, isUrl)
  {
  }

  /** The PATCH request the page sends for a status update. */
  datatype StatusRequest = StatusRequest(path: string, status: MilestoneStatus,
                                         notes: Option<string>, deliverableUrl: Option<string>)

  /** `onStatusUpdateSubmit` on form data that passed validation: nothing is
      sent without a selected milestone or without a next status. */
  function SubmitStatusUpdate(user: Option<User>, selected: Option<Milestone>, data: StatusForm): (r: Option<StatusRequest>)
    ensures r.None? <==> selected.None? || NextStatus(user, selected.value.status).None?
    ensures r.Some? ==> r.value.status == Successor(selected.value.status).value
    ensures r.Some? ==> r.value.path == "/api/milestones/" + IntToString(selected.value.id) + "/status"
    ensures r.Some? ==> r.value.notes == data.notes && r.value.deliverableUrl == data.deliverableUrl
  {
    NextStatusIsSuccessor(user, if selected.Some? then selected.value.status else Pending);
    if selected.None? then None
    else
      var next := NextStatus(user, selected.value.status);
      if next.None? then None
      else Some(StatusRequest("/api/milestones/" + IntToString(selected.value.id) + "/status",
                              next.value, data.notes, data.deliverableUrl))
  }

  /** Submitting the dialog: validation with the intended URL rule, then
      `onStatusUpdateSubmit`. */
  function SubmitStatusDialog(user: Option<User>, selected: Option<Milestone>, f: StatusForm,
                              isUrl: string -> bool): (r: Option<StatusRequest>)
    ensures r.Some? ==> StatusDialogAcceptsIntended(f, isUrl) && selected.Some?
    ensures r.Some? ==> Rank(r.value.status) == Rank(selected.value.status) + 1
  {
    if StatusDialogAcceptsIntended(f, isUrl) then SubmitStatusUpdate(user, selected, f) else None
  }

  /** The JSON body of the PATCH request: the status name, the notes and
      the URL. The milestone id travels in the path, and a field left
      undefined is dropped from the JSON. */
  function RequestBody(r: StatusRequest): (b: StatusUpdate)
    ensures b.id.None?
    ensures b.status.Some? && ParseMilestoneStatus(b.status.value) == Some(r.status)
    ensures b.notes == r.notes
    ensures b.deliverableUrl.None? <==> r.deliverableUrl.None?
    ensures b.deliverableUrl.Some? ==> b.deliverableUrl.value == Some(r.deliverableUrl.value)
  {
    StatusUpdate(None, Some(MilestoneStatusName(r.status)), r.notes,
                 if r.deliverableUrl.Some? then Some(Some(r.deliverableUrl.value)) else None)
  }

  /** A request that is sent moves the milestone exactly one step, to a
      status the permission table grants the user, and its body names that
      status in the shared enum. The shared status-update schema refuses the
      body as sent, because it demands the id that the page puts in the
      path; with that id added it accepts the body exactly when the URL is
      left undefined or passes the URL check, so an empty URL fails it. */
  lemma SentRequestIsPermitted(user: Option<User>, m: Milestone, data: StatusForm, isUrl: string -> bool)
    requires SubmitStatusUpdate(user, Some(m), data).Some?
    ensures user.Some?
    ensures (user.value.role, m.status, SubmitStatusUpdate(user, Some(m), data).value.status) in Permitted
    ensures ParseMilestoneStatus(RequestBody(SubmitStatusUpdate(user, Some(m), data).value).status.value)
            == Some(Successor(m.status).value)
    ensures !StatusUpdateAccepts(RequestBody(SubmitStatusUpdate(user, Some(m), data).value), isUrl)
    ensures m.id > 0 ==>
              (StatusUpdateAccepts(RequestBody(SubmitStatusUpdate(user, Some(m), data).value).(id := Some(m.id as real)), isUrl)
               <==> data.deliverableUrl.None? || isUrl(data.deliverableUrl.value))
  {
    var next := NextStatus(user, m.status).value;
    NextStatusMatchesTable(user.value, m.status, next);
  }

  // ----- Progress and payment totals -----

  /** Statuses that count towards progress. */
  predicate IsDone(m: Milestone) {
    m.status == Completed || m.status == Verified || m.status == Paid
  }

  predicate IsPaid(m: Milestone) {
    m.status == Paid
  }

  function Amount(m: Milestone): real {
    m.amount
  }

  /** `calculateProgress`: the percentage of milestones at least completed;
      0 when the fetched data is not a list or is empty. */
  function Progress(ms: Option<seq<Milestone>>): real {
    if ms.None? || |ms.value| == 0 then 0.0
    else (Count(IsDone, ms.value) as real / |ms.value| as real) * 100.0
  }

  /** `getTotalAmount`. */
  function TotalAmount(ms: Option<seq<Milestone>>): real {
    if ms.None? || |ms.value| == 0 then 0.0 else Sum(Amount, ms.value)
  }

  /** `getPaidAmount`: the amounts of the paid milestones. */
  function PaidAmount(ms: Option<seq<Milestone>>): real {
    if ms.None? || |ms.value| == 0 then 0.0 else Sum(Amount, Filter(IsPaid, ms.value))
  }

  /** The "Remaining" figure. */
  function Remaining(ms: Option<seq<Milestone>>): real {
    TotalAmount(ms) - PaidAmount(ms)
  }

  /** A ratio of a count to a larger positive total, as a percentage. */
  lemma PercentBounds(c: nat, n: nat)
    requires 0 < n && c <= n
    ensures 0.0 <= (c as real / n as real) * 100.0 <= 100.0
    ensures (c as real / n as real) * 100.0 == 100.0 <==> c == n
  {
    var nr, cr := n as real, c as real;
    var q := cr / nr;
    assert q * nr == cr;
    assert 0.0 <= q <= 1.0 by {
      RatioBounds(cr, nr);
    }
    if c == n {
      assert q == 1.0;
    }
  }

  /** A part over a larger positive whole lies between 0 and 1. */
  lemma RatioBounds(part: real, whole: real)
    requires 0.0 < whole && 0.0 <= part <= whole
    ensures 0.0 <= part / whole <= 1.0
  {
    var q := part / whole;
    assert q * whole == part;
    assert (1.0 - q) * whole == whole - part;
  }

  /** Progress is a percentage, 0 for no milestones, and 100 exactly when
      there are milestones and every one is completed, verified or paid. */
  lemma ProgressRange(ms: Option<seq<Milestone>>)
    ensures 0.0 <= Progress(ms) <= 100.0
    ensures ms.None? || |ms.value| == 0 ==> Progress(ms) == 0.0
    ensures Progress(ms) == 100.0 <==> ms.Some? && |ms.value| > 0 && forall m :: m in ms.value ==> IsDone(m)
  {
    if ms.Some? && |ms.value| > 0 {
      CountBound(IsDone, ms.value);
      CountAllIff(IsDone, ms.value);
      PercentBounds(Count(IsDone, ms.value), |ms.value|);
    }
  }

  /** With non-negative amounts the paid figure never exceeds the total, so
      the remaining figure is never negative. */
  lemma PaidWithinTotal(ms: Option<seq<Milestone>>)
    requires ms.Some? ==> forall m :: m in ms.value ==> m.amount >= 0.0
    ensures 0.0 <= PaidAmount(ms) <= TotalAmount(ms)
    ensures Remaining(ms) >= 0.0
  {
    if ms.Some? && |ms.value| > 0 {
      SumFilterBound(IsPaid, Amount, ms.value);
      assert forall m :: m in Filter(IsPaid, ms.value) ==> Amount(m) >= 0.0;
      SumNonNegative(Amount, Filter(IsPaid, ms.value));
    }
  }

  /** Marking the verified milestone at `i` as paid. */
  function MarkPaid(ms: seq<Milestone>, i: nat): (r: seq<Milestone>)
    requires i < |ms|
    ensures |r| == |ms| && r[i].status == Paid
    ensures forall j :: 0 <= j < |ms| && j != i ==> r[j] == ms[j]
  {
    ms[i := ms[i].(status := Paid)]
  }

  /** A verified → paid step raises the paid figure by that milestone's
      amount and leaves the total and the progress unchanged. */
  lemma PayingVerifiedMilestone(ms: seq<Milestone>, i: nat)
    requires i < |ms| && ms[i].status == Verified
    ensures PaidAmount(Some(MarkPaid(ms, i))) == PaidAmount(Some(ms)) + ms[i].amount
    ensures TotalAmount(Some(MarkPaid(ms, i))) == TotalAmount(Some(ms))
    ensures Progress(Some(MarkPaid(ms, i))) == Progress(Some(ms))
  {
    var y := ms[i].(status := Paid);
    SumFilterUpdate(IsPaid, Amount, ms, i, y);
    SumUpdate(Amount, ms, i, y);
    CountUpdate(IsDone, ms, i, y);
  }

  // ----- Timeline ordering -----

  /** Non-decreasing in `order`. */
  predicate SortedByOrder(ms: seq<Milestone>) {
    forall i, j :: 0 <= i < j < |ms| ==> ms[i].order <= ms[j].order
  }

  /** A milestone whose order is at most every order of a sorted list can
      go in front of it. */
  lemma SortedCons(h: Milestone, s: seq<Milestone>)
    requires SortedByOrder(s) && forall x :: x in s ==> h.order <= x.order
    ensures SortedByOrder([h] + s)
  {
    forall i, j | 0 <= i < j < |[h] + s|
      ensures ([h] + s)[i].order <= ([h] + s)[j].order
    {
      if i > 0 {
        assert ([h] + s)[i] == s[i - 1];
      }
      assert ([h] + s)[j] == s[j - 1];
    }
  }

  /** Inserting a milestone before the first one whose order is not smaller. */
  function InsertByOrder(m: Milestone, s: seq<Milestone>): (r: seq<Milestone>)
    requires SortedByOrder(s)
    ensures SortedByOrder(r)
    ensures multiset(r) == multiset(s) + multiset{m}
    ensures |r| == |s| + 1
    ensures forall x :: x in r ==> x in s || x == m
  {
    if |s| == 0 || m.order <= s[0].order then [m] + s
    else
      var rest := InsertByOrder(m, s[1..]);
      assert s == [s[0]] + s[1..];
      assert forall x :: x in s[1..] ==> s[0].order <= x.order;
      SortedCons(s[0], rest);
      [s[0]] + rest
  }

  /** The timeline's `sort((a, b) => a.order - b.order)`, as an insertion
      sort. */
  function SortByOrder(ms: seq<Milestone>): (r: seq<Milestone>)
    ensures SortedByOrder(r)
    ensures multiset(r) == multiset(ms)
  {
    if |ms| == 0 then []
    else
      assert ms == [ms[0]] + ms[1..];
      InsertByOrder(ms[0], SortByOrder(ms[1..]))
  }

  /** A timeline that is already in order is left as it is, so sorting twice
      is sorting once. */
  lemma {:induction false} SortSortedUnchanged(ms: seq<Milestone>)
    requires SortedByOrder(ms)
    ensures SortByOrder(ms) == ms
  {
    if |ms| > 0 {
      SortSortedUnchanged(ms[1..]);
      assert ms == [ms[0]] + ms[1..];
    }
  }

  lemma SortIdempotent(ms: seq<Milestone>)
    ensures SortByOrder(SortByOrder(ms)) == SortByOrder(ms)
  {
    SortSortedUnchanged(SortByOrder(ms));
  }

  /** Selects the milestones of one order. */
  function HasOrder(k: int): Milestone -> bool {
    (m: Milestone) => m.order == k
  }

  /** Filtering a list with one more element in front. */
  lemma FilterCons(p: Milestone -> bool, x: Milestone, s: seq<Milestone>)
    ensures Filter(p, [x] + s) == (if p(x) then [x] else []) + Filter(p, s)
  {
    assert ([x] + s)[0] == x && ([x] + s)[1..] == s;
  }

  /** Inserting puts the new milestone in front of every milestone of the
      same order. */
  lemma {:induction false} InsertStable(m: Milestone, s: seq<Milestone>, k: int)
    requires SortedByOrder(s)
    ensures Filter(HasOrder(k), InsertByOrder(m, s))
            == (if m.order == k then [m] else []) + Filter(HasOrder(k), s)
  {
    var p := HasOrder(k);
    if |s| == 0 || m.order <= s[0].order {
      FilterCons(p, m, s);
    } else {
      var rest := InsertByOrder(m, s[1..]);
      InsertStable(m, s[1..], k);
      assert InsertByOrder(m, s) == [s[0]] + rest;
      PassLower(m, s[0], rest, s[1..], k);
      HeadTail(s);
    }
  }

  /** A milestone of smaller order than the inserted one is never among the
      milestones of the inserted one's order, so passing it does not change
      their relative order. */
  lemma PassLower(m: Milestone, h: Milestone, rest: seq<Milestone>, tail: seq<Milestone>, k: int)
    requires h.order < m.order
    requires Filter(HasOrder(k), rest) == (if m.order == k then [m] else []) + Filter(HasOrder(k), tail)
    ensures Filter(HasOrder(k), [h] + rest)
            == (if m.order == k then [m] else []) + Filter(HasOrder(k), [h] + tail)
  {
    FilterCons(HasOrder(k), h, rest);
    FilterCons(HasOrder(k), h, tail);
  }

  /** The sort is stable, as JavaScript's `Array.prototype.sort` is:
      milestones of equal order keep their fetched order. */
  lemma {:induction false} SortStable(ms: seq<Milestone>, k: int)
    ensures Filter(HasOrder(k), SortByOrder(ms)) == Filter(HasOrder(k), ms)
  {
    if |ms| > 0 {
      SortStable(ms[1..], k);
      InsertStable(ms[0], SortByOrder(ms[1..]), k);
      FilterCons(HasOrder(k), ms[0], ms[1..]);
      assert ms == [ms[0]] + ms[1..];
    }
  }

  /** A freshly created milestone starts at the first status, from which the
      contractor's button completes it. */
  lemma NewMilestoneStartsLifecycle(id: int, contractId: int, title: string, amount: real, contractor: User)
    requires contractor.role == Contractor
    ensures Rank(NewMilestone(id, contractId, title, None, amount, None).status) == 0
    ensures NextStatus(Some(contractor), NewMilestone(id, contractId, title, None, amount, None).status) == Some(Completed)
  {
  }
}
