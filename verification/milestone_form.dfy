/** The milestone form used to create or edit one milestone of a contract
    (and the identical add-milestone form on the milestones page): its text
    fields, their validation, the default values, the request it sends and
    what happens to the form once the request succeeds. */
module MilestoneForm {
  import opened Wrappers
  import opened Text
  import opened Numbers
  import opened Schema

  /** The form's fields, all text inputs. The due date is left out. */
  datatype FormValues = FormValues(title: string, description: string, amount: string, order: string)

  /** Optional initial values for editing. */
  datatype InitialData = InitialData(title: Option<string>, description: Option<string>,
                                     amount: Option<string>, order: Option<string>)

  /** The form's default values. */
  function Defaults(init: Option<InitialData>): (v: FormValues)
    ensures init.None? ==> v == FormValues("", "", "", "0")
    ensures v.order != ""
  {
    if init.None? then FormValues("", "", "", "0")
    else FormValues(OrElse(init.value.title, ""), OrElse(init.value.description, ""),
                    OrElse(init.value.amount, ""), OrElse(init.value.order, "0"))
  }

  /** The amount must convert to a positive number. */
  predicate AmountAccepted(text: string) {
    ToNumber(text).Num? && ToNumber(text).value > 0.0
  }

  /** The order must convert to a non-negative number. */
  predicate OrderAccepted(text: string) {
    ToNumber(text).Num? && ToNumber(text).value >= 0.0
  }

  /** The form's `milestoneSchema`. */
  predicate Accepts(v: FormValues) {
    && |v.title| >= 3
    && |v.description| >= 10
    && AmountAccepted(v.amount)
    && OrderAccepted(v.order)
  }

  /** The request body: the texts as they are, amount and order converted
      with `Number`. The contract id travels in the path, not the body. */
  function Payload(v: FormValues): (b: MilestoneInsert)
    ensures b.contractId.None?
    ensures Accepts(v) ==> b.amount.Some? && b.amount.value > 0.0
    ensures Accepts(v) ==> b.order.Some? && b.order.value >= 0.0
  {
    MilestoneInsert(None, Some(v.title), Some(v.description), Json(ToNumber(v.amount)), Json(ToNumber(v.order)))
  }

  datatype Method = Post | Patch

  datatype Request = Request(verb: Method, path: string, body: MilestoneInsert)

  /** Submitting the form: nothing is sent unless the values pass the form's
      schema; an edit form PATCHes the milestone, any other POSTs to the
      contract's milestone collection. */
  function Submit(isEdit: bool, contractId: int, milestoneId: Option<int>, v: FormValues): (r: Option<Request>)
    ensures r.Some? <==> Accepts(v)
    ensures r.Some? ==> r.value.body == Payload(v)
  {
    if !Accepts(v) then None
    else if isEdit then Some(Request(Patch, "/api/milestones/" + IdSegment(milestoneId), Payload(v)))
    else Some(Request(Post, "/api/contracts/" + IntToString(contractId) + "/milestones", Payload(v)))
  }

  /** The form values after a successful request: creating resets the form
      to its defaults, editing leaves the values in place. Both run the
      caller's callback. */
  function AfterSuccess(isEdit: bool, current: FormValues, defaults: FormValues): FormValues {
    if isEdit then current else defaults
  }

  // ----- Properties -----

  /** The request goes where the mode says, and the id in its path is the one
      the server reads back. */
  lemma SubmitTarget(isEdit: bool, contractId: int, milestoneId: int, v: FormValues)
    requires Accepts(v)
    ensures Submit(isEdit, contractId, Some(milestoneId), v).value.verb == (if isEdit then Patch else Post)
    ensures isEdit ==> Submit(isEdit, contractId, Some(milestoneId), v).value.path
                       == "/api/milestones/" + IntToString(milestoneId)
    ensures !isEdit ==> Submit(isEdit, contractId, Some(milestoneId), v).value.path
                        == "/api/contracts/" + IntToString(contractId) + "/milestones"
    ensures ParseInt(IntToString(if isEdit then milestoneId else contractId))
            == Some(if isEdit then milestoneId else contractId)
  {
    ParseIntOfIntToString(milestoneId);
    ParseIntOfIntToString(contractId);
  }

  /** Blank text converts to 0, so an empty amount is rejected while an empty
      order is accepted as 0. */
  lemma EmptyAmountAndOrder()
    ensures !AmountAccepted("")
    ensures OrderAccepted("") && Json(ToNumber("")) == Some(0.0)
  {
  }

  /** `Number("1.5")` is 1.5. */
  lemma NumberOfOnePointFive()
    ensures ToNumber("1.5") == Num(1.5)
  {
    TrimTrimmed("1.5");
    ScanOnePointFive();
    var n := Numeral(false, "1", "5", 0, 3);
    ToNumberOfNumeral("1.5", n);
    OnePointFiveValue();
  }

  lemma OnePointFiveValue()
    ensures NumeralValue(Numeral(false, "1", "5", 0, 3)) == 1.5
  {
    assert "1"[..0] == "" && DigitsValue("1") == 1;
    assert "5"[..0] == "" && DigitsValue("5") == 5;
  }

  lemma ScanOnePointFive()
    ensures ScanNumeral("1.5") == Some(Numeral(false, "1", "5", 0, 3))
  {
    var s := "1.5";
    assert s[1..] == ".5" && DigitRun(".5") == 0;
    assert "5"[1..] == "" && DigitRun("5") == 1;
    assert s[0] == '1' && s[..1] == "1";
    assert s[1..][1..] == "5" && s[1..][1..][..1] == "5";
  }

  /** `Number("5")` is 5. */
  lemma NumberOfFive()
    ensures ToNumber("5") == Num(5.0)
  {
    ToNumberOfNatToString(5);
    assert NatToString(5) == "5";
  }

  /** `Number("0")` is 0. */
  lemma NumberOfZero()
    ensures ToNumber("0") == Num(0.0)
  {
    ToNumberOfNatToString(0);
    assert NatToString(0) == "0";
  }

  /** The form lets a fractional order through, which the shared insert
      schema's integer order then refuses. */
  lemma FractionalOrderPassesFormOnly(contractId: int)
    ensures Accepts(FormValues("Roof", "Lay the new roof tiles", "5", "1.5"))
    ensures !MilestoneInsertAccepts(Payload(FormValues("Roof", "Lay the new roof tiles", "5", "1.5")).(contractId := Some(contractId)))
  {
    NumberOfOnePointFive();
    NumberOfFive();
    var v := FormValues("Roof", "Lay the new roof tiles", "5", "1.5");
    assert Payload(v).order == Some(1.5);
  }

  /** Everything else the form checks is at least as strict as the shared
      schema: with the contract id added and a whole order, an accepted form
      yields an accepted insert, and the form demands a description that the
      shared schema would let the client leave out. */
  lemma FormStricterThanSchema(v: FormValues, contractId: int)
    requires Accepts(v) && IsNonNegativeInteger(ToNumber(v.order).value)
    ensures MilestoneInsertAccepts(Payload(v).(contractId := Some(contractId)))
    ensures MilestoneInsertAccepts(Payload(v).(contractId := Some(contractId), description := None))
    ensures !Accepts(v.(description := ""))
  {
  }

  /** Editing an accepted milestone: its values, given back as initial data,
      become the form's defaults again (an empty order reappears as "0"), and
      the request they produce carries the same body. */
  lemma PrefillRoundTrip(v: FormValues)
    requires Accepts(v)
    ensures Accepts(Defaults(Some(InitialData(Some(v.title), Some(v.description), Some(v.amount), Some(v.order)))))
    ensures Payload(Defaults(Some(InitialData(Some(v.title), Some(v.description), Some(v.amount), Some(v.order)))))
            == Payload(v)
  {
    var d := Defaults(Some(InitialData(Some(v.title), Some(v.description), Some(v.amount), Some(v.order))));
    PrefillFields(v);
    if v.order == "" {
      EmptyOrderAsZero(v);
    }
  }

  /** The `||` fallbacks give back every non-empty field, and "0" for an
      empty order. */
  lemma PrefillFields(v: FormValues)
    requires v.amount != ""
    ensures Defaults(Some(InitialData(Some(v.title), Some(v.description), Some(v.amount), Some(v.order))))
            == if v.order == "" then v.(order := "0") else v
  {
  }

  /** An empty order and the order "0" are accepted alike and send the same
      body. */
  lemma EmptyOrderAsZero(v: FormValues)
    requires Accepts(v) && v.order == ""
    ensures Accepts(v.(order := "0")) && Payload(v.(order := "0")) == Payload(v)
  {
    NumberOfZero();
    assert ToNumber("") == Num(0.0);
  }

  /** After a successful create the form is back at its defaults, which the
      schema rejects, so the same milestone is not sent twice by accident;
      after an edit the values stay as submitted. */
  lemma ResetAfterCreateOnly(current: FormValues)
    ensures AfterSuccess(false, current, Defaults(None)) == Defaults(None)
    ensures Submit(false, 0, None, AfterSuccess(false, current, Defaults(None))).None?
    ensures AfterSuccess(true, current, Defaults(None)) == current
  {
  }
}
