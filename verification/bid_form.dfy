/** The contractor's bid form on a project page: its fields and validation,
    the request it sends, and how it resets after a successful bid. */
module BidForm {
  import opened Wrappers
  import opened Text
  import opened Numbers
  import opened Schema
  import Routes

  /** The form's values; the amount is what the number input produced. */
  datatype FormValues = FormValues(amount: Option<JsNumber>, description: string, deliveryTime: string)

  const Defaults := FormValues(None, "", "")

  /** The form's `bidSchema`. */
  predicate Accepts(v: FormValues) {
    && PositiveInput(v.amount)
    && |v.description| >= 10
    && |v.deliveryTime| >= 2
  }

  /** The body sent: the three values as they are; an absent amount is
      dropped and `NaN` goes as `null`. Neither id is in the body. */
  function Payload(v: FormValues): (b: BidInsert)
    ensures b.projectId.None? && b.contractorId.None? && b.status.None?
    ensures b.description == Some(v.description) && b.deliveryTime == Some(v.deliveryTime)
    ensures b.amount.Some? <==> v.amount.Some? && v.amount.value.Num?
  {
    BidInsert(None, None, if v.amount.Some? then Json(v.amount.value) else None,
              Some(v.description), Some(v.deliveryTime), None)
  }

  datatype Request = Request(path: string, body: BidInsert)

  /** Submitting: nothing is sent unless the values pass the form's schema;
      otherwise the values are POSTed to the project's bid collection. */
  function Submit(projectId: int, v: FormValues): (r: Option<Request>)
    ensures r.Some? <==> Accepts(v)
    ensures r.Some? ==> r.value.body == Payload(v)
  {
    if Accepts(v) then Some(Request("/api/projects/" + IntToString(projectId) + "/bids", Payload(v)))
    else None
  }

  /** After a successful bid the form returns to its defaults and the page's
      callback runs when one was given. */
  function AfterSuccess(v: FormValues, hasCallback: bool): (r: (FormValues, bool))
    ensures r.0 == Defaults
    ensures r.1 == hasCallback
  {
    (Defaults, hasCallback)
  }

  // ----- Properties -----

  /** An emptied amount box leaves the amount unset, which the form
      refuses, and a fresh form is refused as it stands. */
  lemma EmptyAmountRejected(v: FormValues)
    ensures !Accepts(v.(amount := DecimalInput("")))
    ensures !Accepts(Defaults)
  {
  }

  /** The form's amount and description checks are the server schema's:
      an accepted form's body passes the server's field checks, and a body
      that passes them came from a form that is accepted once a delivery
      time is typed. */
  lemma FormMatchesSchema(v: FormValues)
    ensures Accepts(v) ==> BidFieldsAccepted(Payload(v))
    ensures BidFieldsAccepted(Payload(v)) && |v.deliveryTime| >= 2 ==> Accepts(v)
  {
  }

  /** The request reaches the handler for the project the form is on: the
      path id reads back as that project's id. */
  lemma SubmitTarget(projectId: int, v: FormValues)
    requires Accepts(v)
    ensures Submit(projectId, v).value.path == "/api/projects/" + IntToString(projectId) + "/bids"
    ensures ParseInt(IntToString(projectId)) == Some(projectId)
  {
    ParseIntOfIntToString(projectId);
  }

  /** An accepted bid from a contractor on an open project is refused by the
      handler as written, since the body carries no ids; the intended handler
      stores it with the typed amount, the caller as contractor and the
      status pending. */
  lemma FormBidOutcome(contractor: User, p: Routes.Project, v: FormValues, s: Routes.Store)
    requires contractor.role == Contractor
    requires Routes.FindProject(s.projects, p.id) == Some(p) && p.status == Open
    requires Accepts(v)
    ensures Routes.CreateBid(Some(contractor), IntToString(p.id), Payload(v), s).response.code == 400
    ensures var o := Routes.CreateBidIntended(Some(contractor), IntToString(p.id), Payload(v), s);
            && o.response.code == 201
            && o.response.body.bid.amount == v.amount.value.value
            && o.response.body.bid.contractorId == contractor.id
            && o.response.body.bid.projectId == p.id
            && o.response.body.bid.status == BidPending
  {
    FormMatchesSchema(v);
    Routes.BidWithoutIdsRefused(contractor, p, Payload(v), s);
    ParseIntOfIntToString(p.id);
  }
}
